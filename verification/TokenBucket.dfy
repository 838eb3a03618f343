/**
 * The distributed token bucket: the Lua script that refills, spends, reports a
 * wait and sets a key expiry, and the middleware that turns its reply into
 * response headers.  Lua numbers are modelled as reals and times as whole
 * milliseconds.
 */
module TokenBucket {
  import opened Prelude

  datatype Settings = Settings(capacity: real, refillPerMs: real)

  type Config = c: Settings | c.capacity > 0.0 && c.refillPerMs > 0.0 witness Settings(1.0, 1.0)

  /** The pair the script keeps in the Redis hash. */
  datatype Bucket = Bucket(tokens: real, ts: int)

  datatype Reply = Reply(allowed: bool, remaining: int, waitMs: int)

  /** One call of the script: Redis's clock, the API's clock, and the cost. */
  datatype Request = Request(redisTime: int, time: int, cost: real)

  /** Tokens restored by the passing of `ms` milliseconds. */
  function Refill(cfg: Config, ms: int): real { ms as real * cfg.refillPerMs }

  lemma RefillAdds(cfg: Config, a: int, b: int)
    ensures Refill(cfg, a + b) == Refill(cfg, a) + Refill(cfg, b)
    ensures Refill(cfg, 0) == 0.0
    ensures b >= 0 ==> Refill(cfg, b) >= 0.0
  {
  }

  /** What the bucket holds at `now`, before the request is charged. */
  function Refilled(cfg: Config, stored: Option<Bucket>, now: int): real {
    match stored
    case None => cfg.capacity
    case Some(b) =>
      MinReal(cfg.capacity, b.tokens + Refill(cfg, MaxInt(0, now - b.ts)))
  }

  function Decide(cfg: Config, stored: Option<Bucket>, now: int, cost: real): (Reply, Bucket) {
    var have := Refilled(cfg, stored, now);
    if have >= cost then
      (Reply(true, (have - cost).Floor, 0), Bucket(have - cost, now))
    else
      (Reply(false, have.Floor, Ceil((cost - have) / cfg.refillPerMs)), Bucket(have, now))
  }

  /** Key lifetime in milliseconds, rounded up to a whole second. */
  function TtlMs(cfg: Config): int {
    Ceil((cfg.capacity / cfg.refillPerMs + 60000.0) / 1000.0) * 1000
  }

  /** The key lives for the least whole number of seconds that covers a complete refill and a minute more. */
  lemma LifetimeIsLeastSeconds(cfg: Config)
    ensures TtlMs(cfg) % 1000 == 0
    ensures TtlMs(cfg) as real >= cfg.capacity / cfg.refillPerMs + 60_000.0 > (TtlMs(cfg) - 1000) as real
  {
  }

  /** A Redis hash with its two nullable fields and its deadline on Redis's clock. */
  datatype Entry = Entry(tokens: Option<real>, ts: Option<int>, expiresAt: int)

  /** The pair the script sees when it reads a key at `redisTime`; a key is gone once its deadline has passed. */
  function Visible(keys: map<string, Entry>, key: string, redisTime: int): Option<Bucket> {
    if key in keys && redisTime <= keys[key].expiresAt && keys[key].tokens.Some? && keys[key].ts.Some?
    then Some(Bucket(keys[key].tokens.value, keys[key].ts.value))
    else None
  }

  class RedisStore {
    var keys: map<string, Entry>

    constructor ()
      ensures keys == map[]
    {
      keys := map[];
    }

    /** The script, statement by statement. */
    method Eval(key: string, cfg: Config, r: Request) returns (reply: Reply)
      modifies this
      ensures reply == Decide(cfg, old(Visible(keys, key, r.redisTime)), r.time, r.cost).0
      ensures var b := Decide(cfg, old(Visible(keys, key, r.redisTime)), r.time, r.cost).1;
              keys == old(keys)[key := Entry(Some(b.tokens), Some(b.ts), r.redisTime + TtlMs(cfg))]
    {
      var state := Entry(None, None, 0);
      if key in keys && r.redisTime <= keys[key].expiresAt {
        state := keys[key];
      }
      var tokens, ts := cfg.capacity, r.time;
      if state.tokens.Some? && state.ts.Some? {
        tokens, ts := state.tokens.value, state.ts.value;
      }
      var elapsed := r.time - ts;
      if elapsed < 0 {
        elapsed := 0;
      }
      tokens := MinReal(cfg.capacity, tokens + Refill(cfg, elapsed));
      var allowed := false;
      var remaining := tokens.Floor;
      if tokens >= r.cost {
        tokens := tokens - r.cost;
        allowed := true;
        remaining := tokens.Floor;
      }
      var ttlMs := 0;
      if !allowed {
        var need := r.cost - tokens;
        ttlMs := Ceil(need / cfg.refillPerMs);
      }
      keys := keys[key := Entry(Some(tokens), Some(r.time), r.redisTime + TtlMs(cfg))];
      reply := Reply(allowed, remaining, ttlMs);
    }
  }

  // ----- runs of one key -----

  /** The pair stored after a run of requests on a key that never expires. */
  function StoredAfter(cfg: Config, start: Option<Bucket>, reqs: seq<Request>): Option<Bucket> {
    if reqs == [] then start
    else
      var last := reqs[|reqs| - 1];
      Some(Decide(cfg, StoredAfter(cfg, start, reqs[..|reqs| - 1]), last.time, last.cost).1)
  }

  function ReplyTo(cfg: Config, start: Option<Bucket>, reqs: seq<Request>, i: nat): Reply
    requires i < |reqs|
  {
    Decide(cfg, StoredAfter(cfg, start, reqs[..i]), reqs[i].time, reqs[i].cost).0
  }

  ghost predicate Ordered(reqs: seq<Request>) {
    forall i, j :: 0 <= i <= j < |reqs| ==> reqs[i].time <= reqs[j].time
  }

  ghost predicate NonNegativeCosts(reqs: seq<Request>) {
    forall i :: 0 <= i < |reqs| ==> reqs[i].cost >= 0.0
  }

  // ----- the stored pair as a minimum over the whole history -----

  /** Cost admitted among the requests from index `j` on, starting from an absent key. */
  ghost function SpentSince(cfg: Config, reqs: seq<Request>, j: nat): real {
    if |reqs| <= j then 0.0
    else
      var n := |reqs| - 1;
      SpentSince(cfg, reqs[..n], j) +
      (if ReplyTo(cfg, None, reqs, n).allowed then reqs[n].cost else 0.0)
  }

  /** What the budget opened by request `j` still permits at `now`. */
  ghost function Allowance(cfg: Config, reqs: seq<Request>, j: nat, now: int): real
    requires j < |reqs|
  {
    cfg.capacity + Refill(cfg, now - reqs[j].time) - SpentSince(cfg, reqs, j)
  }

  /** `x` is the least of the allowances of all requests so far. */
  ghost predicate IsLeastAllowance(cfg: Config, reqs: seq<Request>, now: int, x: real) {
    && (exists j: nat :: j < |reqs| && x == Allowance(cfg, reqs, j, now))
    && (forall j: nat :: j < |reqs| ==> x <= Allowance(cfg, reqs, j, now))
  }

  /** Letting time pass adds the same refill to every allowance. */
  lemma AllowanceLater(cfg: Config, reqs: seq<Request>, j: nat, now: int, later: int)
    requires j < |reqs|
    ensures Allowance(cfg, reqs, j, later)
         == Allowance(cfg, reqs, j, now) + Refill(cfg, later - now)
  {
    hide Refill;
    RefillAdds(cfg, now - reqs[j].time, later - now);
    assert (now - reqs[j].time) + (later - now) == later - reqs[j].time;
  }

  /** Charging the last request lowers every earlier allowance by what it spent. */
  lemma AllowanceAfterLast(cfg: Config, reqs: seq<Request>, j: nat, now: int)
    requires j < |reqs| - 1
    ensures var n := |reqs| - 1;
            var spent := if ReplyTo(cfg, None, reqs, n).allowed then reqs[n].cost else 0.0;
            Allowance(cfg, reqs, j, now) == Allowance(cfg, reqs[..n], j, now) - spent
  {
    hide Refill;
  }

  /** The stored pair is the time of the last request and the least allowance at that time. */
  lemma {:induction false} StoredIsLeastAllowance(cfg: Config, reqs: seq<Request>)
    requires reqs != [] && Ordered(reqs)
    ensures var s := StoredAfter(cfg, None, reqs);
            var last := reqs[|reqs| - 1];
            s.Some? && s.value.ts == last.time && IsLeastAllowance(cfg, reqs, last.time, s.value.tokens)
  {
    hide Refill;
    var n := |reqs| - 1;
    var front, last := reqs[..n], reqs[n];
    var s := StoredAfter(cfg, None, reqs).value;
    var spent := if ReplyTo(cfg, None, reqs, n).allowed then last.cost else 0.0;
    var have := Refilled(cfg, StoredAfter(cfg, None, front), last.time);
    assert s == Bucket(have - spent, last.time);
    assert SpentSince(cfg, front, n) == 0.0;
    assert SpentSince(cfg, reqs, n) == spent;
    RefillAdds(cfg, 0, 0);
    assert Allowance(cfg, reqs, n, last.time) == cfg.capacity - spent;
    if n > 0 {
      StoredIsLeastAllowance(cfg, front);
      var t := front[n - 1].time;
      var b := StoredAfter(cfg, None, front).value;
      var dt := last.time - t;
      assert b.ts == t && dt >= 0;
      assert have == MinReal(cfg.capacity, b.tokens + Refill(cfg, dt));
      forall j: nat | j < n
        ensures Allowance(cfg, reqs, j, last.time)
             == Allowance(cfg, front, j, t) + Refill(cfg, dt) - spent
      {
        AllowanceLater(cfg, front, j, t, last.time);
        AllowanceAfterLast(cfg, reqs, j, last.time);
      }
      var k: nat :| k < n && b.tokens == Allowance(cfg, front, k, t);
      assert s.tokens == Allowance(cfg, reqs, k, last.time) || s.tokens == Allowance(cfg, reqs, n, last.time);
    }
  }

  /** The cost admitted since request `j`, plus `cost`, fits the budget of that span. */
  ghost predicate FitsSince(cfg: Config, reqs: seq<Request>, j: nat, now: int, cost: real)
    requires j < |reqs|
  {
    SpentSince(cfg, reqs, j) + cost <= cfg.capacity + Refill(cfg, now - reqs[j].time)
  }

  /** A later reading of the stored minimum: the balance at `now` is capped at the capacity. */
  lemma RefilledIsCappedMinimum(cfg: Config, reqs: seq<Request>, now: int)
    requires reqs != [] && Ordered(reqs) && reqs[|reqs| - 1].time <= now
    ensures exists x :: IsLeastAllowance(cfg, reqs, now, x)
                     && Refilled(cfg, StoredAfter(cfg, None, reqs), now) == MinReal(cfg.capacity, x)
  {
    hide Refill;
    StoredIsLeastAllowance(cfg, reqs);
    var t := reqs[|reqs| - 1].time;
    var b := StoredAfter(cfg, None, reqs).value;
    var x := b.tokens + Refill(cfg, now - t);
    forall j: nat | j < |reqs|
      ensures Allowance(cfg, reqs, j, now) == Allowance(cfg, reqs, j, t) + Refill(cfg, now - t)
    {
      AllowanceLater(cfg, reqs, j, t, now);
    }
    assert IsLeastAllowance(cfg, reqs, now, x);
  }

  /**
   * Admission over the whole history: a request is let through exactly when,
   * measured from now and from every earlier request, the cost admitted since
   * then plus this cost fits in the capacity plus the refill of that span.
   */
  lemma AdmittedIffEveryWindowFits(cfg: Config, reqs: seq<Request>, now: int, cost: real)
    requires Ordered(reqs)
    requires forall i :: 0 <= i < |reqs| ==> reqs[i].time <= now
    ensures Decide(cfg, StoredAfter(cfg, None, reqs), now, cost).0.allowed
       <==> cost <= cfg.capacity && forall j: nat :: j < |reqs| ==> FitsSince(cfg, reqs, j, now, cost)
  {
    hide Refill;
    if reqs != [] {
      RefilledIsCappedMinimum(cfg, reqs, now);
      var x :| IsLeastAllowance(cfg, reqs, now, x)
            && Refilled(cfg, StoredAfter(cfg, None, reqs), now) == MinReal(cfg.capacity, x);
      hide Refilled, StoredAfter, SpentSince;
      var k: nat :| k < |reqs| && x == Allowance(cfg, reqs, k, now);
      assert FitsSince(cfg, reqs, k, now, cost) <==> cost <= x;
      assert forall j: nat :: j < |reqs| ==>
        (FitsSince(cfg, reqs, j, now, cost) <==> cost <= Allowance(cfg, reqs, j, now));
    }
  }

  /** The balance never goes negative and never exceeds the capacity. */
  lemma {:induction false} BalanceInRange(cfg: Config, start: Option<Bucket>, reqs: seq<Request>)
    requires NonNegativeCosts(reqs)
    requires start.Some? ==> 0.0 <= start.value.tokens <= cfg.capacity
    ensures var s := StoredAfter(cfg, start, reqs); s.Some? ==> 0.0 <= s.value.tokens <= cfg.capacity
  {
    hide Refill;
    if reqs != [] {
      var front := reqs[..|reqs| - 1];
      BalanceInRange(cfg, start, front);
      var s := StoredAfter(cfg, start, front);
      if s.Some? {
        var dt := MaxInt(0, reqs[|reqs| - 1].time - s.value.ts);
        RefillAdds(cfg, 0, dt);
      }
    }
  }

  /** No span of the run admits more than the capacity plus that span's refill. */
  lemma SpanIsBounded(cfg: Config, reqs: seq<Request>, i: nat)
    requires i < |reqs| && Ordered(reqs) && NonNegativeCosts(reqs)
    ensures SpentSince(cfg, reqs, i)
         <= cfg.capacity + Refill(cfg, reqs[|reqs| - 1].time - reqs[i].time)
  {
    hide Refill;
    StoredIsLeastAllowance(cfg, reqs);
    BalanceInRange(cfg, None, reqs);
    assert StoredAfter(cfg, None, reqs).value.tokens <= Allowance(cfg, reqs, i, reqs[|reqs| - 1].time);
  }

  // ----- key expiry -----

  /** The keyspace after a run of script calls on one key. */
  function KeysAfter(cfg: Config, key: string, keys: map<string, Entry>, reqs: seq<Request>): map<string, Entry> {
    if reqs == [] then keys
    else
      var last := reqs[|reqs| - 1];
      var before := KeysAfter(cfg, key, keys, reqs[..|reqs| - 1]);
      var b := Decide(cfg, Visible(before, key, last.redisTime), last.time, last.cost).1;
      before[key := Entry(Some(b.tokens), Some(b.ts), last.redisTime + TtlMs(cfg))]
  }

  /** The reply the store gives to request `i` of a run, the key being free to expire. */
  function ExpiringReplyTo(cfg: Config, key: string, keys: map<string, Entry>, reqs: seq<Request>, i: nat): Reply
    requires i < |reqs|
  {
    var seen := Visible(KeysAfter(cfg, key, keys, reqs[..i]), key, reqs[i].redisTime);
    Decide(cfg, seen, reqs[i].time, reqs[i].cost).0
  }

  /** Between consecutive requests Redis's clock gains at most `slack` ms on the API's. */
  ghost predicate ClocksAgree(reqs: seq<Request>, slack: int) {
    forall i :: 0 < i < |reqs| ==>
      (reqs[i].redisTime - reqs[i - 1].redisTime) - (reqs[i].time - reqs[i - 1].time) <= slack
  }

  /** How far the clocks may drift apart between two requests without an expiry mattering. */
  const MAX_DRIFT := 60001

  /** A key old enough to expire would have refilled completely anyway. */
  lemma ExpiredMeansFull(cfg: Config, b: Bucket, now: int)
    requires b.tokens >= 0.0
    requires now - b.ts >= TtlMs(cfg) - 60000
    ensures Refilled(cfg, Some(b), now) == cfg.capacity
  {
    var span := cfg.capacity / cfg.refillPerMs;
    assert TtlMs(cfg) as real >= span + 60000.0;
    var dt := now - b.ts;
    assert dt as real >= span > 0.0;
    assert dt as real * cfg.refillPerMs >= span * cfg.refillPerMs == cfg.capacity;
  }

  /** Expiry changes neither the stored pair nor any reply. */
  lemma {:induction false} ExpiryNeverChangesAPair(cfg: Config, key: string, reqs: seq<Request>)
    requires reqs != [] && Ordered(reqs) && NonNegativeCosts(reqs) && ClocksAgree(reqs, MAX_DRIFT)
    ensures var keys := KeysAfter(cfg, key, map[], reqs);
            var last := reqs[|reqs| - 1];
            var s := StoredAfter(cfg, None, reqs);
            && s.Some?
            && key in keys
            && keys[key] == Entry(Some(s.value.tokens), Some(s.value.ts), last.redisTime + TtlMs(cfg))
            && s.value.ts == last.time
            && ExpiringReplyTo(cfg, key, map[], reqs, |reqs| - 1) == ReplyTo(cfg, None, reqs, |reqs| - 1)
  {
    var n := |reqs| - 1;
    var front, last := reqs[..n], reqs[n];
    if n > 0 {
      ExpiryNeverChangesAPair(cfg, key, front);
      BalanceInRange(cfg, None, front);
      var b := StoredAfter(cfg, None, front).value;
      var keys := KeysAfter(cfg, key, map[], front);
      assert front[n - 1] == reqs[n - 1];
      if last.redisTime <= keys[key].expiresAt {
        assert Visible(keys, key, last.redisTime) == Some(b);
      } else {
        ExpiredMeansFull(cfg, b, last.time);
        assert Visible(keys, key, last.redisTime) == None;
      }
    }
  }

  lemma ExpiryNeverChangesAReply(cfg: Config, key: string, reqs: seq<Request>, i: nat)
    requires i < |reqs| && Ordered(reqs) && NonNegativeCosts(reqs) && ClocksAgree(reqs, MAX_DRIFT)
    ensures ExpiringReplyTo(cfg, key, map[], reqs, i) == ReplyTo(cfg, None, reqs, i)
  {
    var upTo := reqs[..i + 1];
    ExpiryNeverChangesAPair(cfg, key, upTo);
    assert upTo[..i] == reqs[..i];
  }

  /** One millisecond more of clock disagreement and an expiry can change a decision. */
  lemma ClockSlackIsTight()
    ensures var cfg := Settings(1.0, 1.0 / 60000.0);
            var reqs := [Request(0, 0, 1.0), Request(120001, 59999, 1.0)];
            && Ordered(reqs) && NonNegativeCosts(reqs) && ClocksAgree(reqs, MAX_DRIFT + 1)
            && ExpiringReplyTo(cfg, "rl", map[], reqs, 1).allowed
            && !ReplyTo(cfg, None, reqs, 1).allowed
  {
    var cfg: Config := Settings(1.0, 1.0 / 60000.0);
    var reqs := [Request(0, 0, 1.0), Request(120001, 59999, 1.0)];
    assert reqs[..1] == [reqs[0]] && reqs[..1][..0] == [];
    assert TtlMs(cfg) == 120000;
    assert StoredAfter(cfg, None, reqs[..1]) == Some(Bucket(0.0, 0));
    assert Visible(KeysAfter(cfg, "rl", map[], reqs[..1]), "rl", 120001) == None;
  }

  // ----- the wait reported on denial -----

  /** Every poll in the run that starts from `start` is turned away. */
  ghost predicate AllDenied(cfg: Config, start: Option<Bucket>, polls: seq<Request>) {
    forall i :: 0 <= i < |polls| ==> !ReplyTo(cfg, start, polls, i).allowed
  }

  /** Denied polls spend nothing: the balance later is as if they had not been made. */
  lemma {:induction false} DeniedPollsLeaveNoTrace(cfg: Config, b: Bucket, polls: seq<Request>, t: int)
    requires Ordered(polls) && AllDenied(cfg, Some(b), polls)
    requires forall i :: 0 <= i < |polls| ==> b.ts <= polls[i].time <= t
    requires b.ts <= t && b.tokens <= cfg.capacity
    ensures Refilled(cfg, StoredAfter(cfg, Some(b), polls), t) == Refilled(cfg, Some(b), t)
  {
    hide Refill;
    if polls != [] {
      var n := |polls| - 1;
      var front, last := polls[..n], polls[n];
      assert forall i :: 0 <= i < n ==> front[..i] == polls[..i];
      assert forall i :: 0 <= i < n ==> ReplyTo(cfg, Some(b), front, i) == ReplyTo(cfg, Some(b), polls, i);
      DeniedPollsLeaveNoTrace(cfg, b, front, last.time);
      assert !ReplyTo(cfg, Some(b), polls, n).allowed;
      assert StoredAfter(cfg, Some(b), polls) == Some(Bucket(Refilled(cfg, Some(b), last.time), last.time));
      RefillAdds(cfg, last.time - b.ts, t - last.time);
      assert (last.time - b.ts) + (t - last.time) == t - b.ts;
    }
  }

  /** The script's wait is the least whole number of milliseconds that restores `need` tokens. */
  lemma LeastRestoringWait(cfg: Config, need: real, dt: int)
    ensures Refill(cfg, dt) >= need <==> dt >= Ceil(need / cfg.refillPerMs)
  {
    var x := need / cfg.refillPerMs;
    assert x * cfg.refillPerMs == need;
    CeilIsLeast(x, dt);
    if dt as real >= x {
      assert dt as real * cfg.refillPerMs >= x * cfg.refillPerMs;
    } else {
      assert dt as real * cfg.refillPerMs < x * cfg.refillPerMs;
    }
  }

  /**
   * The reported wait is exact.  After a denial, with any denied polls in
   * between, a request of the same cost is admitted exactly from `now + waitMs`
   * on, provided the cost fits in the bucket at all; otherwise it never is.
   */
  lemma WaitIsExact(cfg: Config, stored: Option<Bucket>, now: int, cost: real, polls: seq<Request>, t: int)
    requires stored.Some? ==> stored.value.tokens <= cfg.capacity
    requires !Decide(cfg, stored, now, cost).0.allowed
    requires var b := Decide(cfg, stored, now, cost).1; AllDenied(cfg, Some(b), polls)
    requires Ordered(polls) && now <= t && forall i :: 0 <= i < |polls| ==> now <= polls[i].time <= t
    ensures var (reply, b) := Decide(cfg, stored, now, cost);
            Decide(cfg, StoredAfter(cfg, Some(b), polls), t, cost).0.allowed
            <==> cost <= cfg.capacity && t >= now + reply.waitMs
  {
    hide Refill;
    var (reply, b) := Decide(cfg, stored, now, cost);
    DeniedPollsLeaveNoTrace(cfg, b, polls, t);
    LeastRestoringWait(cfg, cost - b.tokens, t - now);
  }

  // ----- the reported remainder -----

  function Burst(now: int, k: nat): seq<Request> { seq(k, _ => Request(now, now, 1.0)) }

  lemma {:induction false} BurstSpendsOneEach(cfg: Config, b: Bucket, k: nat)
    requires b.tokens <= cfg.capacity && k <= b.tokens.Floor
    ensures StoredAfter(cfg, Some(b), Burst(b.ts, k)) == Some(Bucket(b.tokens - k as real, b.ts))
  {
    if k > 0 {
      BurstSpendsOneEach(cfg, b, k - 1);
      assert Burst(b.ts, k)[..k - 1] == Burst(b.ts, k - 1);
      assert Refill(cfg, 0) == 0.0;
    }
  }

  /** The reported remainder is the whole part of what is left, admitted or not. */
  lemma RemainderIsWhatIsLeft(cfg: Config, stored: Option<Bucket>, now: int, cost: real)
    requires stored.Some? ==> 0.0 <= stored.value.tokens <= cfg.capacity
    requires cost >= 0.0
    ensures var (reply, b) := Decide(cfg, stored, now, cost);
            0 <= reply.remaining && reply.remaining as real <= b.tokens < reply.remaining as real + 1.0
    ensures Decide(cfg, stored, now, cost).1.tokens <= cfg.capacity && Decide(cfg, stored, now, cost).1.ts == now
  {
    hide Refill;
    if stored.Some? {
      RefillAdds(cfg, 0, MaxInt(0, now - stored.value.ts));
    }
  }

  /** One of a burst of unit requests is admitted exactly while a whole token is left. */
  lemma BurstReply(cfg: Config, b: Bucket, k: nat, i: nat)
    requires b.tokens <= cfg.capacity && i < k && i <= b.tokens.Floor
    ensures ReplyTo(cfg, Some(b), Burst(b.ts, k), i).allowed <==> i + 1 <= b.tokens.Floor
  {
    BurstSpendsOneEach(cfg, b, i);
    assert Burst(b.ts, k)[..i] == Burst(b.ts, i);
    assert Refill(cfg, 0) == 0.0;
  }

  /**
   * `remaining` is never negative, and it is the number of further unit-cost
   * requests that would be let through at the same instant, whether or not this
   * one was: all of `k` more are admitted exactly when `k` does not exceed it.
   */
  lemma RemainingCountsTheBurst(cfg: Config, stored: Option<Bucket>, now: int, cost: real, k: nat)
    requires stored.Some? ==> 0.0 <= stored.value.tokens <= cfg.capacity
    requires cost >= 0.0
    ensures var (reply, b) := Decide(cfg, stored, now, cost);
            && reply.remaining >= 0
            && ((forall i :: 0 <= i < k ==> ReplyTo(cfg, Some(b), Burst(now, k), i).allowed) <==> k <= reply.remaining)
  {
    hide Refill, ReplyTo;
    var (reply, b) := Decide(cfg, stored, now, cost);
    RemainderIsWhatIsLeft(cfg, stored, now, cost);
    hide Decide;
    assert b.tokens.Floor == reply.remaining;
    forall i: nat | i < k && i <= reply.remaining
      ensures ReplyTo(cfg, Some(b), Burst(now, k), i).allowed <==> i + 1 <= reply.remaining
    {
      BurstReply(cfg, b, k, i);
    }
    assert k > reply.remaining ==> !ReplyTo(cfg, Some(b), Burst(now, k), reply.remaining).allowed;
  }

  /** A clock that goes back neither adds nor removes tokens. */
  lemma EarlierClockChangesNothing(cfg: Config, b: Bucket, now: int)
    requires now <= b.ts && b.tokens <= cfg.capacity
    ensures Refilled(cfg, Some(b), now) == b.tokens
  {
    RefillAdds(cfg, 0, 0);
    hide Refill;
  }

  // ----- the middleware -----

  /** Whole seconds put in `Retry-After` for a wait in milliseconds. */
  function RetryAfterSeconds(waitMs: int): int {
    MaxInt(1, Ceil(waitMs as real / 1000.0))
  }

  /**
   * `Retry-After` is the least whole number of seconds that suffices: waiting
   * that long is enough, and one second less is not.
   */
  lemma RetryAfterIsLeastSufficient(cfg: Config, stored: Option<Bucket>, now: int, cost: real, seconds: nat)
    requires stored.Some? ==> stored.value.tokens <= cfg.capacity
    requires !Decide(cfg, stored, now, cost).0.allowed && cost <= cfg.capacity
    ensures var (reply, b) := Decide(cfg, stored, now, cost);
            Decide(cfg, Some(b), now + 1000 * seconds, cost).0.allowed
            <==> seconds >= RetryAfterSeconds(reply.waitMs)
  {
    var (reply, b) := Decide(cfg, stored, now, cost);
    WaitIsExact(cfg, stored, now, cost, [], now + 1000 * seconds);
    assert StoredAfter(cfg, Some(b), []) == Some(b);
    assert (cost - b.tokens) / cfg.refillPerMs > 0.0;
    assert reply.waitMs >= 1;
    CeilIsLeast(reply.waitMs as real / 1000.0, seconds);
  }

  datatype Headers = Headers(limit: real, remaining: int, resetSeconds: int)

  datatype Outcome =
    | Passed(headers: Headers)
    | RateLimited(headers: Headers, retryAfterSeconds: int)
    | StoreUnavailable

  class RateLimitMiddleware {
    const routeClass: string
    const capacity: real
    const windowMs: int
    const redis: RedisStore?
    const failClosed: bool

    constructor (routeClass: string, capacity: real, windowMs: int, redis: RedisStore?, failClosed: bool)
      requires capacity > 0.0 && windowMs > 0
      ensures this.routeClass == routeClass && this.capacity == capacity && this.windowMs == windowMs
      ensures this.redis == redis && this.failClosed == failClosed
    {
      this.routeClass, this.capacity, this.windowMs := routeClass, capacity, windowMs;
      this.redis, this.failClosed := redis, failClosed;
    }

    ghost predicate Valid() { capacity > 0.0 && windowMs > 0 }

    function Cfg(): Config
      requires Valid()
    {
      Settings(capacity, capacity / windowMs as real)
    }

    function BucketKey(principal: string): string { "rl:" + routeClass + ":" + principal }

    /**
     * Handles one request of cost 1.  `storeUp` says whether the call to Redis
     * succeeds; an unconfigured or failing store lets the request pass, unless
     * the deployment fails closed.
     */
    method Use(principal: string, redisTime: int, now: int, storeUp: bool) returns (out: Outcome)
      requires Valid()
      modifies redis
      ensures redis == null ==> out == Passed(Headers(capacity, capacity.Floor, 0))
      ensures redis != null && !storeUp ==>
                redis.keys == old(redis.keys) &&
                out == if failClosed then StoreUnavailable else Passed(Headers(capacity, capacity.Floor, 0))
      ensures redis != null && storeUp ==>
                var seen := old(Visible(redis.keys, BucketKey(principal), redisTime));
                var (reply, b) := Decide(Cfg(), seen, now, 1.0);
                && redis.keys == old(redis.keys)[BucketKey(principal) :=
                     Entry(Some(b.tokens), Some(b.ts), redisTime + TtlMs(Cfg()))]
                && (reply.allowed ==> out == Passed(Headers(capacity, reply.remaining, 0)))
                && (!reply.allowed ==>
                     out == RateLimited(Headers(capacity, 0, RetryAfterSeconds(reply.waitMs)),
                                        RetryAfterSeconds(reply.waitMs)))
    {
      var allowed, remaining, resetMs := true, capacity.Floor, 0;
      if redis != null {
        if storeUp {
          var reply := redis.Eval(BucketKey(principal), Cfg(), Request(redisTime, now, 1.0));
          allowed, remaining, resetMs := reply.allowed, reply.remaining, reply.waitMs;
          assert !allowed ==> resetMs >= 1 by {
            var have := Refilled(Cfg(), old(Visible(redis.keys, BucketKey(principal), redisTime)), now);
            assert !allowed ==> (1.0 - have) / Cfg().refillPerMs > 0.0;
          }
        } else if failClosed {
          return StoreUnavailable;
        }
      }
      var headers := Headers(capacity, if allowed then remaining else 0,
                             MaxInt(0, Ceil(resetMs as real / 1000.0)));
      if !allowed {
        return RateLimited(headers, RetryAfterSeconds(resetMs));
      }
      return Passed(headers);
    }
  }

  /** With cost 1, a denial is temporary exactly when the bucket can hold a token. */
  lemma EveryDenialEnds(cfg: Config, stored: Option<Bucket>, now: int)
    requires stored.Some? ==> stored.value.tokens <= cfg.capacity
    requires !Decide(cfg, stored, now, 1.0).0.allowed
    ensures (exists t :: t >= now && Decide(cfg, Some(Decide(cfg, stored, now, 1.0).1), t, 1.0).0.allowed)
            <==> cfg.capacity >= 1.0
  {
    var (reply, b) := Decide(cfg, stored, now, 1.0);
    if cfg.capacity >= 1.0 {
      RetryAfterIsLeastSufficient(cfg, stored, now, 1.0, RetryAfterSeconds(reply.waitMs));
      assert Decide(cfg, Some(b), now + 1000 * RetryAfterSeconds(reply.waitMs), 1.0).0.allowed;
    }
  }

  // ----- what the middleware asks for -----

  /** Principals and route classes have buckets of their own. */
  lemma BucketKeysAreApart(a: RateLimitMiddleware, b: RateLimitMiddleware, p: string, q: string)
    requires ':' !in a.routeClass && ':' !in b.routeClass
    ensures a.BucketKey(p) == b.BucketKey(q) <==> a.routeClass == b.routeClass && p == q
  {
    var x, y := a.BucketKey(p), b.BucketKey(q);
    var m, n := |a.routeClass|, |b.routeClass|;
    assert x[3 + m] == ':' && y[3 + n] == ':';
    assert forall i :: 0 <= i < m ==> x[3 + i] == a.routeClass[i] != ':';
    assert forall i :: 0 <= i < n ==> y[3 + i] == b.routeClass[i] != ':';
    if x == y {
      assert m == n;
      assert a.routeClass == x[3..3 + m] && b.routeClass == y[3..3 + n];
      assert p == x[4 + m..] && q == y[4 + n..];
    }
  }

  /**
   * The capacity is restored over the window: a bucket is full again after `dt`
   * milliseconds exactly when that share of the window covers what it lacked.
   */
  lemma FullAgainIff(m: RateLimitMiddleware, b: Bucket, dt: nat)
    requires m.Valid() && 0.0 <= b.tokens <= m.capacity
    ensures Refilled(m.Cfg(), Some(b), b.ts + dt) == m.capacity
       <==> dt as real * m.capacity >= (m.capacity - b.tokens) * m.windowMs as real
  {
    var w := m.windowMs as real;
    var gain := Refill(m.Cfg(), dt);
    ShareOfWindow(dt as real, m.capacity, w);
    ScaledComparison(gain, m.capacity - b.tokens, w);
  }

  lemma ShareOfWindow(dt: real, capacity: real, w: real)
    requires w > 0.0
    ensures dt * (capacity / w) * w == dt * capacity
  {
    assert capacity / w * w == capacity;
    assert dt * (capacity / w) * w == dt * (capacity / w * w);
  }

  lemma ScaledComparison(x: real, y: real, w: real)
    requires w > 0.0
    ensures x >= y <==> x * w >= y * w
  {
    assert x * w - y * w == (x - y) * w;
  }

  /** So every bucket is full again one window after its last request, and an empty one no sooner. */
  lemma FullAfterOneWindow(m: RateLimitMiddleware, b: Bucket, dt: nat)
    requires m.Valid() && 0.0 <= b.tokens <= m.capacity
    ensures dt >= m.windowMs ==> Refilled(m.Cfg(), Some(b), b.ts + dt) == m.capacity
    ensures b.tokens == 0.0 && dt < m.windowMs ==> Refilled(m.Cfg(), Some(b), b.ts + dt) < m.capacity
  {
    hide Refilled;
    FullAgainIff(m, b, dt);
    RefilledIsCapped(m.Cfg(), b, b.ts + dt);
    ScaledComparison(dt as real, m.windowMs as real, m.capacity);
    ScaledComparison(m.capacity, m.capacity - b.tokens, m.windowMs as real);
  }

  lemma RefilledIsCapped(cfg: Config, b: Bucket, now: int)
    ensures Refilled(cfg, Some(b), now) <= cfg.capacity
  {
  }
}

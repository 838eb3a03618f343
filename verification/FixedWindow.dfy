/**
 * The gateway's per-agent fixed-window limiter: a map from agent to a counter
 * and the time its window opened.
 */
module FixedWindow {
  import opened Prelude

  datatype Window = Window(count: int, windowStart: int)

  datatype Settings = Settings(limit: int, windowMs: int)

  /** The window after one request at `now`, and whether that request is refused. */
  function Count(cfg: Settings, w: Option<Window>, now: int): (Window, bool) {
    if w.None? || now - w.value.windowStart > cfg.windowMs then (Window(1, now), false)
    else
      var c := w.value.count + 1;
      (Window(c, w.value.windowStart), c > cfg.limit)
  }

  function Lookup(buckets: map<string, Window>, agentId: string): Option<Window> {
    if agentId in buckets then Some(buckets[agentId]) else None
  }

  class RateBuckets {
    var buckets: map<string, Window>

    constructor ()
      ensures buckets == map[]
    {
      buckets := map[];
    }

    method RateLimited(agentId: string, now: int, cfg: Settings) returns (limited: bool)
      modifies this
      ensures var (w, refused) := Count(cfg, Lookup(old(buckets), agentId), now);
              limited == refused && buckets == old(buckets)[agentId := w]
    {
      if agentId !in buckets || now - buckets[agentId].windowStart > cfg.windowMs {
        buckets := buckets[agentId := Window(1, now)];
        return false;
      }
      var bucket := buckets[agentId];
      bucket := bucket.(count := bucket.count + 1);
      buckets := buckets[agentId := bucket];
      return bucket.count > cfg.limit;
    }
  }

  // ----- runs over many agents -----

  datatype Call = Call(agentId: string, now: int)

  function BucketsAfter(cfg: Settings, buckets: map<string, Window>, calls: seq<Call>): map<string, Window>
    decreases calls
  {
    if calls == [] then buckets
    else
      var c := calls[0];
      BucketsAfter(cfg, buckets[c.agentId := Count(cfg, Lookup(buckets, c.agentId), c.now).0], calls[1..])
  }

  /** How many of the calls for `agentId` are let through. */
  function Passed(cfg: Settings, buckets: map<string, Window>, agentId: string, calls: seq<Call>): nat
    decreases calls
  {
    if calls == [] then 0
    else
      var c := calls[0];
      var (w, refused) := Count(cfg, Lookup(buckets, c.agentId), c.now);
      (if c.agentId == agentId && !refused then 1 else 0)
        + Passed(cfg, buckets[c.agentId := w], agentId, calls[1..])
  }

  ghost predicate Ordered(calls: seq<Call>) {
    forall i, j :: 0 <= i <= j < |calls| ==> calls[i].now <= calls[j].now
  }

  ghost predicate Within(calls: seq<Call>, lo: int, hi: int) {
    forall i :: 0 <= i < |calls| ==> lo <= calls[i].now <= hi
  }

  /** Every stored window has counted the request that opened it. */
  ghost predicate Reached(buckets: map<string, Window>) {
    forall a :: a in buckets ==> buckets[a].count >= 1
  }

  lemma {:induction false} ReachedAfter(cfg: Settings, buckets: map<string, Window>, calls: seq<Call>)
    requires Reached(buckets)
    ensures Reached(BucketsAfter(cfg, buckets, calls))
    decreases calls
  {
    if calls != [] {
      var c := calls[0];
      ReachedAfter(cfg, buckets[c.agentId := Count(cfg, Lookup(buckets, c.agentId), c.now).0], calls[1..]);
    }
  }

  /** While the agent's window stays open only what is left of its limit gets through. */
  lemma {:induction false} RestOfWindow(cfg: Settings, buckets: map<string, Window>, agentId: string, calls: seq<Call>)
    requires agentId in buckets
    requires forall i :: 0 <= i < |calls| ==> calls[i].now - buckets[agentId].windowStart <= cfg.windowMs
    ensures Passed(cfg, buckets, agentId, calls) <= MaxInt(0, cfg.limit - buckets[agentId].count)
    decreases calls
  {
    if calls != [] {
      var c := calls[0];
      RestOfWindow(cfg, buckets[c.agentId := Count(cfg, Lookup(buckets, c.agentId), c.now).0], agentId, calls[1..]);
    }
  }

  /** From any reached state, a span of one window length lets at most 2 * limit - 1 through. */
  lemma {:induction false} SpanFrom(cfg: Settings, buckets: map<string, Window>, agentId: string, calls: seq<Call>, lo: int)
    requires cfg.limit >= 1 && cfg.windowMs >= 0
    requires Reached(buckets) && Ordered(calls) && Within(calls, lo, lo + cfg.windowMs)
    ensures Passed(cfg, buckets, agentId, calls)
         <= cfg.limit + if agentId in buckets then MaxInt(0, cfg.limit - buckets[agentId].count) else 0
    decreases calls
  {
    if calls != [] {
      var c := calls[0];
      var (w, refused) := Count(cfg, Lookup(buckets, c.agentId), c.now);
      var next := buckets[c.agentId := w];
      if c.agentId == agentId && w.windowStart == c.now && w.count == 1 {
        RestOfWindow(cfg, next, agentId, calls[1..]);
      } else {
        SpanFrom(cfg, next, agentId, calls[1..], lo);
      }
    }
  }

  /**
   * After any calls by any agents, any stretch of ordered calls inside a closed
   * interval of one window length lets through at most 2 * limit - 1 requests
   * of any one agent.
   */
  lemma AnyIntervalIsBounded(cfg: Settings, before: seq<Call>, agentId: string, calls: seq<Call>, lo: int)
    requires cfg.limit >= 1 && cfg.windowMs >= 0
    requires Ordered(before + calls) && Within(calls, lo, lo + cfg.windowMs)
    ensures Passed(cfg, BucketsAfter(cfg, map[], before), agentId, calls) <= 2 * cfg.limit - 1
  {
    ReachedAfter(cfg, map[], before);
    forall i, j | 0 <= i <= j < |calls| ensures calls[i].now <= calls[j].now {
      assert (before + calls)[|before| + i] == calls[i] && (before + calls)[|before| + j] == calls[j];
    }
    SpanFrom(cfg, BucketsAfter(cfg, map[], before), agentId, calls, lo);
  }

  /** A run of `n` calls by one agent at one instant. */
  function Volley(agentId: string, now: int, n: nat): seq<Call> { seq(n, _ => Call(agentId, now)) }

  /** The state in which `a`'s window, opened at `start`, has counted `count` requests. */
  function Counted(buckets: map<string, Window>, a: string, count: int, start: int): map<string, Window> {
    buckets[a := Window(count, start)]
  }

  lemma VolleyStep(cfg: Settings, buckets: map<string, Window>, a: string, start: int, count: int, now: int, rest: seq<Call>)
    requires 0 <= now - start <= cfg.windowMs && count < cfg.limit
    ensures Passed(cfg, Counted(buckets, a, count, start), a, [Call(a, now)] + rest)
         == 1 + Passed(cfg, Counted(buckets, a, count + 1, start), a, rest)
  {
    var calls := [Call(a, now)] + rest;
    assert calls[0] == Call(a, now) && calls[1..] == rest;
    assert Counted(buckets, a, count, start)[a := Window(count + 1, start)] == Counted(buckets, a, count + 1, start);
  }

  lemma {:induction false} VolleyIntoOpenWindow(cfg: Settings, buckets: map<string, Window>, a: string, start: int, count: int, now: int, n: nat, rest: seq<Call>)
    requires 0 <= now - start <= cfg.windowMs && count + n <= cfg.limit
    ensures Passed(cfg, Counted(buckets, a, count, start), a, Volley(a, now, n) + rest)
         == n + Passed(cfg, Counted(buckets, a, count + n, start), a, rest)
    decreases n
  {
    hide Passed, Counted, Volley;
    VolleySplits(a, now, n, rest);
    if n > 0 {
      VolleyStep(cfg, buckets, a, start, count, now, Volley(a, now, n - 1) + rest);
      VolleyIntoOpenWindow(cfg, buckets, a, start, count + 1, now, n - 1, rest);
    }
  }

  lemma VolleySplits(a: string, now: int, n: nat, rest: seq<Call>)
    ensures n == 0 ==> Volley(a, now, n) + rest == rest
    ensures n > 0 ==> Volley(a, now, n) + rest == [Call(a, now)] + (Volley(a, now, n - 1) + rest)
  {
  }

  /** The tail of a full window, then at once a full new window. */
  function Bursts(cfg: Settings, a: string): seq<Call>
    requires cfg.limit >= 1
  {
    Volley(a, cfg.windowMs, cfg.limit - 1) + Volley(a, cfg.windowMs + 1, cfg.limit)
  }

  lemma BurstsPass(cfg: Settings, a: string)
    requires cfg.limit >= 1 && cfg.windowMs >= 1
    ensures Passed(cfg, Counted(map[], a, 1, 0), a, Bursts(cfg, a)) == 2 * cfg.limit - 1
  {
    hide Passed, Counted;
    VolleyIntoOpenWindow(cfg, map[], a, 0, 1, cfg.windowMs, cfg.limit - 1, Volley(a, cfg.windowMs + 1, cfg.limit));
    NewWindowOpens(cfg, a);
    VolleyIntoOpenWindow(cfg, map[], a, cfg.windowMs + 1, 1, cfg.windowMs + 1, cfg.limit - 1, []);
    NothingPasses(cfg, Counted(map[], a, cfg.limit, cfg.windowMs + 1), a);
  }

  lemma NothingPasses(cfg: Settings, buckets: map<string, Window>, a: string)
    ensures Passed(cfg, buckets, a, []) == 0
  {
  }

  /** One call after the window has closed opens the next. */
  lemma NewWindowOpens(cfg: Settings, a: string)
    requires cfg.limit >= 1
    ensures Passed(cfg, Counted(map[], a, cfg.limit, 0), a, Volley(a, cfg.windowMs + 1, cfg.limit))
         == 1 + Passed(cfg, Counted(map[], a, 1, cfg.windowMs + 1), a, Volley(a, cfg.windowMs + 1, cfg.limit - 1) + [])
  {
    var tail := Volley(a, cfg.windowMs + 1, cfg.limit);
    assert tail[0] == Call(a, cfg.windowMs + 1);
    assert tail[1..] == Volley(a, cfg.windowMs + 1, cfg.limit - 1) + [];
    assert Counted(map[], a, cfg.limit, 0)[a := Window(1, cfg.windowMs + 1)] == Counted(map[], a, 1, cfg.windowMs + 1);
  }

  /** The bound is reached. */
  lemma BoundIsReached(cfg: Settings, a: string)
    requires cfg.limit >= 1 && cfg.windowMs >= 1
    ensures Ordered([Call(a, 0)] + Bursts(cfg, a)) && Within(Bursts(cfg, a), 1, 1 + cfg.windowMs)
    ensures Passed(cfg, BucketsAfter(cfg, map[], [Call(a, 0)]), a, Bursts(cfg, a)) == 2 * cfg.limit - 1
  {
    BurstsPass(cfg, a);
    assert [Call(a, 0)][1..] == [];
    assert BucketsAfter(cfg, map[], [Call(a, 0)]) == Counted(map[], a, 1, 0);
  }

  // ----- when a call is let through -----

  /** The times of one agent's calls, oldest first. */
  function OwnTimes(calls: seq<Call>, agentId: string): seq<int> {
    if calls == [] then []
    else
      var c := calls[|calls| - 1];
      OwnTimes(calls[..|calls| - 1], agentId) + if c.agentId == agentId then [c.now] else []
  }

  /** Which of an agent's calls opened the window that its last call fell into. */
  function Opening(times: seq<int>, windowMs: int): (o: nat)
    requires times != []
    ensures o < |times|
  {
    var last := |times| - 1;
    if last == 0 then 0
    else
      var o := Opening(times[..last], windowMs);
      if times[last] - times[o] > windowMs then last else o
  }

  lemma {:induction false} BucketsAfterSnoc(cfg: Settings, buckets: map<string, Window>, calls: seq<Call>, c: Call)
    ensures var before := BucketsAfter(cfg, buckets, calls);
            BucketsAfter(cfg, buckets, calls + [c])
            == before[c.agentId := Count(cfg, Lookup(before, c.agentId), c.now).0]
    decreases calls
  {
    hide Count, Lookup;
    if calls == [] {
      assert ([] + [c])[1..] == [] && ([] + [c])[0] == c;
    } else {
      assert (calls + [c])[0] == calls[0] && (calls + [c])[1..] == calls[1..] + [c];
      var d := calls[0];
      BucketsAfterSnoc(cfg, buckets[d.agentId := Count(cfg, Lookup(buckets, d.agentId), d.now).0], calls[1..], c);
    }
  }

  /** The window an agent's calls leave behind: opened by `Opening`, counting from there. */
  function WindowOf(times: seq<int>, windowMs: int): Option<Window> {
    if times == [] then None
    else
      var o := Opening(times, windowMs);
      Some(Window(|times| - o, times[o]))
  }

  lemma WindowOfSnoc(cfg: Settings, times: seq<int>, t: int)
    ensures WindowOf(times + [t], cfg.windowMs) == Some(Count(cfg, WindowOf(times, cfg.windowMs), t).0)
  {
    assert (times + [t])[..|times|] == times;
  }

  /** Whatever other agents do, an agent's window is the one its own calls leave behind. */
  lemma {:induction false} WindowIsOwn(cfg: Settings, calls: seq<Call>, agentId: string)
    ensures Lookup(BucketsAfter(cfg, map[], calls), agentId) == WindowOf(OwnTimes(calls, agentId), cfg.windowMs)
    decreases |calls|
  {
    hide Count, Opening;
    if calls != [] {
      var front, c := calls[..|calls| - 1], calls[|calls| - 1];
      assert calls == front + [c];
      WindowIsOwn(cfg, front, agentId);
      BucketsAfterSnoc(cfg, map[], front, c);
      WindowOfSnoc(cfg, OwnTimes(front, agentId), c.now);
      hide BucketsAfter, WindowOf;
      assert OwnTimes(front, agentId) + [] == OwnTimes(front, agentId);
    }
  }

  /**
   * A call is let through exactly when it opens a window, being the agent's first
   * call or more than `windowMs` after the call that opened the last one, or
   * fewer than `limit` of the agent's calls have come since that opening.
   */
  lemma LetThroughIff(cfg: Settings, calls: seq<Call>, agentId: string, now: int)
    ensures var times := OwnTimes(calls, agentId);
            !Count(cfg, Lookup(BucketsAfter(cfg, map[], calls), agentId), now).1
            <==> times == [] || now - times[Opening(times, cfg.windowMs)] > cfg.windowMs
                 || |times| - Opening(times, cfg.windowMs) < cfg.limit
  {
    hide Opening, BucketsAfter, OwnTimes;
    WindowIsOwn(cfg, calls, agentId);
  }
}

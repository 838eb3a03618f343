/**
 * Threshold rules with a duration window: a counter per (rule id, resource)
 * kept under one joined string key, and the batch loop that feeds it.
 */
module RuleTracker {
  import opened Prelude

  datatype Comparator = Above | Below

  datatype ThresholdRule = ThresholdRule(
    metric: string, comparator: Comparator, threshold: real,
    consecutiveSamples: int, severity: string, eventType: string)

  datatype RuleEvaluation = RuleEvaluation(
    fired: bool, eventType: Option<string>, severity: Option<string>, value: real, consecutiveCount: int)

  predicate Violates(rule: ThresholdRule, value: real) {
    if rule.comparator == Above then value > rule.threshold else value < rule.threshold
  }

  function EvaluateThresholdRule(rule: ThresholdRule, prior: int, value: real): RuleEvaluation {
    var count := if Violates(rule, value) then prior + 1 else 0;
    if count >= rule.consecutiveSamples
    then RuleEvaluation(true, Some(rule.eventType), Some(rule.severity), value, count)
    else RuleEvaluation(false, None, None, value, count)
  }

  function Key(ruleId: string, resourceId: string): string { ruleId + ":" + resourceId }

  function Lookup(counts: map<string, int>, key: string): int { if key in counts then counts[key] else 0 }

  /** One call of `track`. */
  datatype Call = Call(ruleId: string, resourceId: string, value: real, rule: ThresholdRule)

  function Evaluation(counts: map<string, int>, c: Call): RuleEvaluation {
    EvaluateThresholdRule(c.rule, Lookup(counts, Key(c.ruleId, c.resourceId)), c.value)
  }

  function CountsAfter(counts: map<string, int>, calls: seq<Call>): map<string, int> {
    if calls == [] then counts
    else
      var c := calls[|calls| - 1];
      var before := CountsAfter(counts, calls[..|calls| - 1]);
      before[Key(c.ruleId, c.resourceId) := Evaluation(before, c).consecutiveCount]
  }

  datatype MetricSample = MetricSample(metric: string, resourceId: string, value: real)

  /** The calls one sample causes, rule by rule; the rule's event type is its id. */
  function CallsOf(rules: seq<ThresholdRule>, s: MetricSample): seq<Call> {
    if rules == [] then []
    else
      var front := CallsOf(rules[..|rules| - 1], s);
      var rule := rules[|rules| - 1];
      if rule.metric == s.metric then front + [Call(rule.eventType, s.resourceId, s.value, rule)] else front
  }

  function CallsOfBatch(rules: seq<ThresholdRule>, samples: seq<MetricSample>): seq<Call> {
    if samples == [] then []
    else CallsOfBatch(rules, samples[..|samples| - 1]) + CallsOf(rules, samples[|samples| - 1])
  }

  /** The evaluation leads to an event: it fired, and names a type and a severity. */
  predicate Emits(e: RuleEvaluation) {
    e.fired && e.eventType.Some? && e.eventType.value != "" && e.severity.Some? && e.severity.value != ""
  }

  /** The calls that lead to an event, in order. */
  function Emitted(counts: map<string, int>, calls: seq<Call>): seq<Call> {
    if calls == [] then []
    else
      var front, c := calls[..|calls| - 1], calls[|calls| - 1];
      Emitted(counts, front) + if Emits(Evaluation(CountsAfter(counts, front), c)) then [c] else []
  }

  class RuleStateTracker {
    var counts: map<string, int>

    constructor ()
      ensures counts == map[]
    {
      counts := map[];
    }

    method Track(ruleId: string, resourceId: string, value: real, rule: ThresholdRule) returns (result: RuleEvaluation)
      modifies this
      ensures result == Evaluation(old(counts), Call(ruleId, resourceId, value, rule))
      ensures counts == CountsAfter(old(counts), [Call(ruleId, resourceId, value, rule)])
      ensures result.value == value && result.consecutiveCount == counts[Key(ruleId, resourceId)]
      ensures result.fired <==> result.consecutiveCount >= rule.consecutiveSamples
      ensures result.eventType == (if result.fired then Some(rule.eventType) else None)
      ensures result.severity == (if result.fired then Some(rule.severity) else None)
    {
      var key := ruleId + ":" + resourceId;
      var prior := if key in counts then counts[key] else 0;
      result := EvaluateThresholdRule(rule, prior, value);
      counts := counts[key := result.consecutiveCount];
      assert [Call(ruleId, resourceId, value, rule)][..0] == [];
    }

    method Reset(ruleId: string, resourceId: string)
      modifies this
      ensures counts == old(counts) - {Key(ruleId, resourceId)}
    {
      counts := counts - {ruleId + ":" + resourceId};
    }

    /** The metrics job's loop: every sample against every rule for its metric. */
    method EvaluateBatch(rules: seq<ThresholdRule>, samples: seq<MetricSample>) returns (emitted: seq<Call>)
      modifies this
      ensures counts == CountsAfter(old(counts), CallsOfBatch(rules, samples))
      ensures emitted == Emitted(old(counts), CallsOfBatch(rules, samples))
    {
      hide CountsAfter, Emitted, CallsOf;
      emitted := [];
      ghost var done: seq<Call> := [];
      NoCalls(counts);
      for i := 0 to |samples|
        invariant done == CallsOfBatch(rules, samples[..i])
        invariant counts == CountsAfter(old(counts), done) && emitted == Emitted(old(counts), done)
      {
        var more := EvaluateSample(rules, samples[i]);
        CallsCompose(old(counts), done, CallsOf(rules, samples[i]));
        emitted, done := emitted + more, done + CallsOf(rules, samples[i]);
        assert samples[..i + 1][..i] == samples[..i];
      }
      assert samples[..|samples|] == samples;
    }

    /** Its inner loop: one sample against every rule. */
    method EvaluateSample(rules: seq<ThresholdRule>, sample: MetricSample) returns (emitted: seq<Call>)
      modifies this
      ensures counts == CountsAfter(old(counts), CallsOf(rules, sample))
      ensures emitted == Emitted(old(counts), CallsOf(rules, sample))
    {
      hide CountsAfter, Emitted, EvaluateThresholdRule;
      emitted := [];
      NoCalls(counts);
      for j := 0 to |rules|
        invariant counts == CountsAfter(old(counts), CallsOf(rules[..j], sample))
        invariant emitted == Emitted(old(counts), CallsOf(rules[..j], sample))
      {
        var rule := rules[j];
        assert rules[..j + 1][..j] == rules[..j];
        if rule.metric == sample.metric {
          ghost var call := Call(rule.eventType, sample.resourceId, sample.value, rule);
          CallsCompose(old(counts), CallsOf(rules[..j], sample), [call]);
          EmittedOne(counts, call);
          var evaluation := Track(rule.eventType, sample.resourceId, sample.value, rule);
          NamesOfRule(rule, evaluation);
          if evaluation.fired && rule.eventType != "" && rule.severity != "" {
            emitted := emitted + [Call(rule.eventType, sample.resourceId, sample.value, rule)];
          } else {
            assert emitted + [] == emitted;
          }
        }
      }
      assert rules[..|rules|] == rules;
    }
  }

  lemma NamesOfRule(rule: ThresholdRule, e: RuleEvaluation)
    requires exists prior, value :: e == EvaluateThresholdRule(rule, prior, value)
    ensures Emits(e) <==> e.fired && rule.eventType != "" && rule.severity != ""
  {
  }

  lemma NoCalls(counts: map<string, int>)
    ensures CountsAfter(counts, []) == counts && Emitted(counts, []) == []
  {
  }

  lemma EmittedOne(counts: map<string, int>, c: Call)
    ensures Emitted(counts, [c]) == if Emits(Evaluation(counts, c)) then [c] else []
  {
    assert [c][..0] == [];
  }

  /** Calls in two parts: the second goes on from the counters the first leaves. */
  lemma {:induction false} CallsCompose(counts: map<string, int>, a: seq<Call>, b: seq<Call>)
    ensures CountsAfter(counts, a + b) == CountsAfter(CountsAfter(counts, a), b)
    ensures Emitted(counts, a + b) == Emitted(counts, a) + Emitted(CountsAfter(counts, a), b)
  {
    hide Evaluation, Emits, Key;
    if b == [] {
      assert a + b == a;
    } else {
      assert (a + b)[..|a + b| - 1] == a + b[..|b| - 1];
      CallsCompose(counts, a, b[..|b| - 1]);
    }
  }

  // ----- the joined key -----

  lemma {:induction false} KeyIsInjective(r1: string, x1: string, r2: string, x2: string)
    requires ':' !in r1 && ':' !in r2
    requires Key(r1, x1) == Key(r2, x2)
    ensures r1 == r2 && x1 == x2
  {
    var k := Key(r1, x1);
    assert k[|r1|] == ':' && forall i :: 0 <= i < |r1| ==> k[i] == r1[i] != ':';
    assert k[|r2|] == ':' && forall i :: 0 <= i < |r2| ==> k[i] == r2[i] != ':';
    assert r1 == k[..|r1|] && x1 == k[|r1| + 1..];
    assert r2 == k[..|r2|] && x2 == k[|r2| + 1..];
  }

  /** Some resources make two rule ids share a key. */
  ghost predicate KeysCollide(r1: string, r2: string) { exists x1, x2 :: Key(r1, x1) == Key(r2, x2) }

  /** Two rule ids share a key for some resources exactly when one, up to its separator, begins the other. */
  lemma KeysCollideIff(r1: string, r2: string)
    ensures KeysCollide(r1, r2) <==> r1 + ":" <= r2 + ":" || r2 + ":" <= r1 + ":"
  {
    if KeysCollide(r1, r2) {
      var x1, x2 :| Key(r1, x1) == Key(r2, x2);
      assert r1 + ":" <= Key(r1, x1) && r2 + ":" <= Key(r2, x2);
    }
    if r1 + ":" <= r2 + ":" {
      LongerIdCollides(r1, r2);
    }
    if r2 + ":" <= r1 + ":" {
      LongerIdCollides(r2, r1);
    }
  }

  lemma LongerIdCollides(r1: string, r2: string)
    requires r1 + ":" <= r2 + ":"
    ensures KeysCollide(r1, r2) && KeysCollide(r2, r1)
  {
    var x := (r2 + ":")[|r1| + 1..];
    assert Key(r1, x) == r2 + ":" == Key(r2, "");
  }

  // ----- counters against histories, whatever the ids and rules -----

  /** The calls on one key, oldest first. */
  function OnKey(calls: seq<Call>, key: string): seq<Call> {
    if calls == [] then []
    else
      var c := calls[|calls| - 1];
      OnKey(calls[..|calls| - 1], key) + if Key(c.ruleId, c.resourceId) == key then [c] else []
  }

  predicate CallViolates(c: Call) { Violates(c.rule, c.value) }

  /** `n` is the length of the longest suffix of `calls` that violates throughout, each call by its own rule. */
  ghost predicate IsCallStreak(calls: seq<Call>, n: int) {
    && 0 <= n <= |calls|
    && (forall i :: |calls| - n <= i < |calls| ==> CallViolates(calls[i]))
    && (n < |calls| ==> !CallViolates(calls[|calls| - n - 1]))
  }

  lemma CallStreakExtends(calls: seq<Call>, n: int, c: Call)
    requires IsCallStreak(calls, n)
    ensures IsCallStreak(calls + [c], if CallViolates(c) then n + 1 else 0)
  {
    assert forall i :: 0 <= i < |calls| ==> (calls + [c])[i] == calls[i];
  }

  /** With no assumption at all: a counter is the violating streak of the calls on its key. */
  lemma {:induction false} CountIsKeyStreak(calls: seq<Call>, key: string)
    ensures IsCallStreak(OnKey(calls, key), Lookup(CountsAfter(map[], calls), key))
  {
    hide IsCallStreak, CallViolates;
    if calls == [] {
      EmptyStreak();
    } else {
      var front, c := calls[..|calls| - 1], calls[|calls| - 1];
      CountIsKeyStreak(front, key);
      CountOfCall(CountsAfter(map[], front), c);
      if Key(c.ruleId, c.resourceId) == key {
        CallStreakExtends(OnKey(front, key), Lookup(CountsAfter(map[], front), key), c);
      } else {
        assert OnKey(front, key) + [] == OnKey(front, key);
      }
    }
  }

  lemma EmptyStreak()
    ensures IsCallStreak([], 0)
  {
  }

  lemma CountOfCall(counts: map<string, int>, c: Call)
    ensures var prior := Lookup(counts, Key(c.ruleId, c.resourceId));
            Evaluation(counts, c).consecutiveCount == if CallViolates(c) then prior + 1 else 0
  {
  }

  /** With no assumption at all: a call fires exactly when the last k calls on its key, this one included, violate. */
  lemma FiresIffLastKOnKeyViolate(calls: seq<Call>, c: Call)
    ensures var h := OnKey(calls, Key(c.ruleId, c.resourceId)) + [c];
            var k := c.rule.consecutiveSamples;
            Evaluation(CountsAfter(map[], calls), c).fired
            <==> k <= |h| && forall i :: |h| - k <= i < |h| ==> CallViolates(h[i])
  {
    var key, counts := Key(c.ruleId, c.resourceId), CountsAfter(map[], calls);
    hide Key, CountsAfter, OnKey, CallViolates;
    CountIsKeyStreak(calls, key);
    CallStreakExtends(OnKey(calls, key), Lookup(counts, key), c);
    CountOfCall(counts, c);
    hide Lookup;
    var h, n := OnKey(calls, key) + [c], Evaluation(counts, c).consecutiveCount;
    assert n < |h| ==> !CallViolates(h[|h| - n - 1]);
  }

  // ----- a batch of samples against a set of rules -----

  /** No two rules can share a key. */
  ghost predicate Apart(rules: seq<ThresholdRule>) {
    forall i, j :: 0 <= i < j < |rules| ==> !KeysCollide(rules[i].eventType, rules[j].eventType)
  }

  /** Rules with different event types free of colons are apart. */
  lemma DifferentTypesAreApart(rules: seq<ThresholdRule>)
    requires forall i :: 0 <= i < |rules| ==> ':' !in rules[i].eventType
    requires forall i, j :: 0 <= i < j < |rules| ==> rules[i].eventType != rules[j].eventType
    ensures Apart(rules)
  {
    forall i, j | 0 <= i < j < |rules| ensures !KeysCollide(rules[i].eventType, rules[j].eventType) {
      forall x1, x2 | Key(rules[i].eventType, x1) == Key(rules[j].eventType, x2) ensures false {
        KeyIsInjective(rules[i].eventType, x1, rules[j].eventType, x2);
      }
    }
  }

  function CallFor(rule: ThresholdRule, s: MetricSample): Call { Call(rule.eventType, s.resourceId, s.value, rule) }

  /** The calls that the samples of the rule's metric and one resource cause, oldest first. */
  function OwnCalls(rule: ThresholdRule, resourceId: string, samples: seq<MetricSample>): seq<Call> {
    if samples == [] then []
    else
      var s := samples[|samples| - 1];
      OwnCalls(rule, resourceId, samples[..|samples| - 1])
        + if s.metric == rule.metric && s.resourceId == resourceId then [CallFor(rule, s)] else []
  }

  lemma SameIdSameResource(r: string, x1: string, x2: string)
    requires Key(r, x1) == Key(r, x2)
    ensures x1 == x2
  {
    assert x1 == Key(r, x1)[|r| + 1..] && x2 == Key(r, x2)[|r| + 1..];
  }

  /** Of the calls one sample causes through the first `n` rules, those on rule `j`'s key. */
  lemma {:induction false} OnKeyOfSample(rules: seq<ThresholdRule>, n: nat, j: nat, resourceId: string, s: MetricSample)
    requires Apart(rules) && j < |rules| && n <= |rules|
    ensures OnKey(CallsOf(rules[..n], s), Key(rules[j].eventType, resourceId))
         == if j < n && s.metric == rules[j].metric && s.resourceId == resourceId then [CallFor(rules[j], s)] else []
  {
    hide Key, KeysCollide;
    if n > 0 {
      var i, key := n - 1, Key(rules[j].eventType, resourceId);
      OnKeyOfSample(rules, i, j, resourceId, s);
      assert rules[..n][..i] == rules[..i] && rules[..n][i] == rules[i];
      var front, c := CallsOf(rules[..i], s), CallFor(rules[i], s);
      assert (front + [c])[..|front|] == front;
      if Key(c.ruleId, c.resourceId) == key {
        CollisionMeansSame(rules, i, j, s.resourceId, resourceId);
      }
      assert OnKey(front, key) + [] == OnKey(front, key);
    }
  }

  lemma CollisionMeansSame(rules: seq<ThresholdRule>, i: nat, j: nat, x1: string, x2: string)
    requires Apart(rules) && i < |rules| && j < |rules|
    requires Key(rules[i].eventType, x1) == Key(rules[j].eventType, x2)
    ensures i == j && x1 == x2
  {
    assert KeysCollide(rules[i].eventType, rules[j].eventType) && KeysCollide(rules[j].eventType, rules[i].eventType);
    SameIdSameResource(rules[i].eventType, x1, x2);
  }

  lemma {:induction false} OnKeyAppends(a: seq<Call>, b: seq<Call>, key: string)
    ensures OnKey(a + b, key) == OnKey(a, key) + OnKey(b, key)
  {
    hide Key;
    if b == [] {
      assert a + b == a;
    } else {
      assert (a + b)[..|a + b| - 1] == a + b[..|b| - 1];
      OnKeyAppends(a, b[..|b| - 1], key);
    }
  }

  lemma {:induction false} OnKeyOfBatch(rules: seq<ThresholdRule>, j: nat, resourceId: string, samples: seq<MetricSample>)
    requires Apart(rules) && j < |rules|
    ensures OnKey(CallsOfBatch(rules, samples), Key(rules[j].eventType, resourceId)) == OwnCalls(rules[j], resourceId, samples)
  {
    hide Key, CallsOf, Apart;
    if samples != [] {
      var front, s, key := samples[..|samples| - 1], samples[|samples| - 1], Key(rules[j].eventType, resourceId);
      OnKeyOfBatch(rules, j, resourceId, front);
      OnKeyOfSample(rules, |rules|, j, resourceId, s);
      assert rules[..|rules|] == rules;
      OnKeyAppends(CallsOfBatch(rules, front), CallsOf(rules, s), key);
    }
  }

  /** The values of one metric and resource, oldest first. */
  function SampleValues(metric: string, resourceId: string, samples: seq<MetricSample>): seq<real> {
    if samples == [] then []
    else
      var s := samples[|samples| - 1];
      SampleValues(metric, resourceId, samples[..|samples| - 1])
        + if s.metric == metric && s.resourceId == resourceId then [s.value] else []
  }

  lemma {:induction false} OwnCallsCarryValues(rule: ThresholdRule, resourceId: string, samples: seq<MetricSample>)
    ensures var calls, values := OwnCalls(rule, resourceId, samples), SampleValues(rule.metric, resourceId, samples);
            |calls| == |values| && forall i :: 0 <= i < |calls| ==> calls[i].rule == rule && calls[i].value == values[i]
  {
    if samples != [] {
      OwnCallsCarryValues(rule, resourceId, samples[..|samples| - 1]);
    }
  }

  /**
   * The rule is due on the last of these values: its last k values all lie
   * strictly beyond the threshold, on the side its comparator names.
   */
  predicate Due(rule: ThresholdRule, values: seq<real>) {
    var k := rule.consecutiveSamples;
    && k <= |values|
    && (rule.comparator == Above ==> forall i :: |values| - k <= i < |values| ==> values[i] > rule.threshold)
    && (rule.comparator == Below ==> forall i :: |values| - k <= i < |values| ==> values[i] < rule.threshold)
  }

  /**
   * When no two rules can share a key, the `j`-th rule fires on a sample of its
   * metric, whatever samples came before, exactly when the last k samples of
   * that metric and resource, this one included, are all above the threshold, or
   * all below it for a rule that looks downwards.
   */
  lemma RuleFiresIffLastKSamplesViolate(rules: seq<ThresholdRule>, past: seq<MetricSample>, s: MetricSample, j: nat)
    requires Apart(rules) && j < |rules| && rules[j].metric == s.metric
    ensures var before := CallsOfBatch(rules, past) + CallsOf(rules[..j], s);
            var values := SampleValues(s.metric, s.resourceId, past) + [s.value];
            Evaluation(CountsAfter(map[], before), CallFor(rules[j], s)).fired <==> Due(rules[j], values)
  {
    hide Key, CallsOf, CallsOfBatch, Apart, Evaluation, CountsAfter, OnKey, OwnCalls, SampleValues;
    var c, rule := CallFor(rules[j], s), rules[j];
    var key := Key(rule.eventType, s.resourceId);
    var past0, own := CallsOfBatch(rules, past), OwnCalls(rule, s.resourceId, past);
    OnKeyOfBatch(rules, j, s.resourceId, past);
    OnKeyOfSample(rules, j, j, s.resourceId, s);
    OnKeyAppends(past0, CallsOf(rules[..j], s), key);
    assert own + [] == own;
    FiresIffLastKOnKeyViolate(past0 + CallsOf(rules[..j], s), c);
    OwnCallsCarryValues(rule, s.resourceId, past);
    DueIsAllViolate(rule, own + [c], SampleValues(s.metric, s.resourceId, past) + [s.value]);
  }

  lemma DueIsAllViolate(rule: ThresholdRule, calls: seq<Call>, values: seq<real>)
    requires |calls| == |values|
    requires forall i :: 0 <= i < |calls| ==> calls[i].rule == rule && calls[i].value == values[i]
    ensures var k := rule.consecutiveSamples;
            Due(rule, values)
            <==> k <= |calls| && forall i :: |calls| - k <= i < |calls| ==> CallViolates(calls[i])
  {
  }

  /** The events one sample leads to, of the first `n` rules, by the samples alone. */
  function DueOf(rules: seq<ThresholdRule>, past: seq<MetricSample>, s: MetricSample, n: nat): seq<Call>
    requires n <= |rules|
  {
    if n == 0 then []
    else
      var rule := rules[n - 1];
      DueOf(rules, past, s, n - 1)
        + if rule.metric == s.metric && rule.eventType != "" && rule.severity != ""
             && Due(rule, SampleValues(s.metric, s.resourceId, past) + [s.value])
          then [CallFor(rule, s)] else []
  }

  /** The events a batch leads to, by the samples alone. */
  function DueOfBatch(rules: seq<ThresholdRule>, samples: seq<MetricSample>): seq<Call> {
    if samples == [] then []
    else
      var past, s := samples[..|samples| - 1], samples[|samples| - 1];
      DueOfBatch(rules, past) + DueOf(rules, past, s, |rules|)
  }

  lemma EvaluationNamesItsRule(counts: map<string, int>, c: Call)
    ensures Emits(Evaluation(counts, c)) <==> Evaluation(counts, c).fired && c.rule.eventType != "" && c.rule.severity != ""
  {
  }

  lemma {:induction false} SampleEmitsWhatIsDue(rules: seq<ThresholdRule>, past: seq<MetricSample>, s: MetricSample, n: nat)
    requires Apart(rules) && n <= |rules|
    ensures Emitted(map[], CallsOfBatch(rules, past) + CallsOf(rules[..n], s))
         == Emitted(map[], CallsOfBatch(rules, past)) + DueOf(rules, past, s, n)
  {
    hide Apart, Emitted, CallsOfBatch, Evaluation, Emits, Due, SampleValues, CountsAfter;
    var base := CallsOfBatch(rules, past);
    if n == 0 {
      assert base + [] == base && Emitted(map[], base) + [] == Emitted(map[], base);
    } else {
      SampleEmitsWhatIsDue(rules, past, s, n - 1);
      assert rules[..n][..n - 1] == rules[..n - 1] && rules[..n][n - 1] == rules[n - 1];
      var front, rule := base + CallsOf(rules[..n - 1], s), rules[n - 1];
      var c := CallFor(rule, s);
      if rule.metric == s.metric {
        RuleFiresIffLastKSamplesViolate(rules, past, s, n - 1);
        EvaluationNamesItsRule(CountsAfter(map[], front), c);
        CallsCompose(map[], front, [c]);
        EmittedOne(CountsAfter(map[], front), c);
        assert base + CallsOf(rules[..n], s) == front + [c];
        JoinThree(Emitted(map[], base), DueOf(rules, past, s, n - 1), Emitted(CountsAfter(map[], front), [c]));
      } else {
        assert DueOf(rules, past, s, n - 1) + [] == DueOf(rules, past, s, n - 1);
      }
    }
  }

  lemma JoinThree<T>(a: seq<T>, b: seq<T>, c: seq<T>)
    ensures (a + b) + c == a + (b + c)
  {
  }

  /**
   * From empty counters, and when no two rules can share a key, any samples lead
   * to exactly the events that are due by the samples alone, in order.
   */
  lemma {:induction false} BatchEmitsWhatIsDue(rules: seq<ThresholdRule>, samples: seq<MetricSample>)
    requires Apart(rules)
    ensures Emitted(map[], CallsOfBatch(rules, samples)) == DueOfBatch(rules, samples)
  {
    hide Apart, DueOf, CallsOf;
    if samples != [] {
      var past, s := samples[..|samples| - 1], samples[|samples| - 1];
      BatchEmitsWhatIsDue(rules, past);
      SampleEmitsWhatIsDue(rules, past, s, |rules|);
      assert rules[..|rules|] == rules;
    }
  }

  // ----- one pair's own samples -----

  /** The values this (rule id, resource) pair has been given, oldest first. */
  ghost function Own(calls: seq<Call>, ruleId: string, resourceId: string): seq<real> {
    if calls == [] then []
    else
      var c := calls[|calls| - 1];
      Own(calls[..|calls| - 1], ruleId, resourceId)
        + if c.ruleId == ruleId && c.resourceId == resourceId then [c.value] else []
  }

  /** Ids hold no colon and each id is always used with the same rule. */
  ghost predicate WellKeyed(calls: seq<Call>, ruleId: string, rule: ThresholdRule) {
    && ':' !in ruleId
    && (forall i :: 0 <= i < |calls| ==> ':' !in calls[i].ruleId)
    && (forall i :: 0 <= i < |calls| && calls[i].ruleId == ruleId ==> calls[i].rule == rule)
  }

  /** `n` is the length of the longest suffix of `values` that violates throughout. */
  ghost predicate IsStreak(rule: ThresholdRule, values: seq<real>, n: int) {
    && 0 <= n <= |values|
    && (forall i :: |values| - n <= i < |values| ==> Violates(rule, values[i]))
    && (n < |values| ==> !Violates(rule, values[|values| - n - 1]))
  }

  lemma StreakExtends(rule: ThresholdRule, values: seq<real>, n: int, v: real)
    requires IsStreak(rule, values, n)
    ensures IsStreak(rule, values + [v], if Violates(rule, v) then n + 1 else 0)
  {
    var longer := values + [v];
    assert forall i :: 0 <= i < |values| ==> longer[i] == values[i];
  }

  /** Whatever other keys are interleaved, the counter is the pair's own violating streak. */
  lemma {:induction false} CountIsOwnStreak(calls: seq<Call>, ruleId: string, resourceId: string, rule: ThresholdRule)
    requires WellKeyed(calls, ruleId, rule)
    ensures IsStreak(rule, Own(calls, ruleId, resourceId), Lookup(CountsAfter(map[], calls), Key(ruleId, resourceId)))
  {
    if calls != [] {
      var front, c := calls[..|calls| - 1], calls[|calls| - 1];
      CountIsOwnStreak(front, ruleId, resourceId, rule);
      if Key(c.ruleId, c.resourceId) == Key(ruleId, resourceId) {
        KeyIsInjective(c.ruleId, c.resourceId, ruleId, resourceId);
        StreakExtends(rule, Own(front, ruleId, resourceId),
                      Lookup(CountsAfter(map[], front), Key(ruleId, resourceId)), c.value);
      }
    }
  }

  /** A rule fires on a sample exactly when that key's last k samples, this one included, violate. */
  lemma FiresIffLastKViolate(calls: seq<Call>, c: Call)
    requires WellKeyed(calls, c.ruleId, c.rule) && c.rule.consecutiveSamples >= 1
    ensures var values := Own(calls, c.ruleId, c.resourceId) + [c.value];
            var k := c.rule.consecutiveSamples;
            Evaluation(CountsAfter(map[], calls), c).fired
            <==> k <= |values| && forall i :: |values| - k <= i < |values| ==> Violates(c.rule, values[i])
  {
    var own := Own(calls, c.ruleId, c.resourceId);
    CountIsOwnStreak(calls, c.ruleId, c.resourceId, c.rule);
    var prior := Lookup(CountsAfter(map[], calls), Key(c.ruleId, c.resourceId));
    StreakExtends(c.rule, own, prior, c.value);
    var n := Evaluation(CountsAfter(map[], calls), c).consecutiveCount;
    var values := own + [c.value];
    assert n < |values| ==> !Violates(c.rule, values[|values| - n - 1]);
  }

  /** How many of `during` are calls of this pair that fire, the calls of `before` having come first. */
  ghost function Firings(before: seq<Call>, during: seq<Call>, ruleId: string, resourceId: string): nat {
    if during == [] then 0
    else
      var front, c := during[..|during| - 1], during[|during| - 1];
      Firings(before, front, ruleId, resourceId)
        + if c.ruleId == ruleId && c.resourceId == resourceId
             && Evaluation(CountsAfter(map[], before + front), c).fired then 1 else 0
  }

  lemma {:induction false} OwnAppends(a: seq<Call>, b: seq<Call>, ruleId: string, resourceId: string)
    ensures Own(a + b, ruleId, resourceId) == Own(a, ruleId, resourceId) + Own(b, ruleId, resourceId)
  {
    if b == [] {
      assert a + b == a;
    } else {
      assert (a + b)[..|a + b| - 1] == a + b[..|b| - 1];
      OwnAppends(a, b[..|b| - 1], ruleId, resourceId);
    }
  }

  ghost predicate AllViolate(rule: ThresholdRule, values: seq<real>) {
    forall i :: 0 <= i < |values| ==> Violates(rule, values[i])
  }

  ghost predicate EndsCalm(rule: ThresholdRule, values: seq<real>) {
    values == [] || !Violates(rule, values[|values| - 1])
  }

  /** After a history that does not end in a violation, the last k values all violate once the run holds k. */
  lemma RunDecidesTail(rule: ThresholdRule, past: seq<real>, run: seq<real>, k: int)
    requires EndsCalm(rule, past)
    requires k >= 1 && AllViolate(rule, run)
    ensures var values := past + run;
            (k <= |values| && forall i :: |values| - k <= i < |values| ==> Violates(rule, values[i]))
            <==> k <= |run|
  {
    var values := past + run;
    if |run| < k <= |values| {
      assert values[|past| - 1] == past[|past| - 1];
    }
  }

  /** Inside a fresh violating run a sample fires exactly when it is the run's k-th or later. */
  lemma FiresFromKthOn(before: seq<Call>, front: seq<Call>, c: Call)
    requires WellKeyed(before + front, c.ruleId, c.rule) && c.rule.consecutiveSamples >= 1
    requires EndsCalm(c.rule, Own(before, c.ruleId, c.resourceId))
    requires AllViolate(c.rule, Own(front, c.ruleId, c.resourceId) + [c.value])
    ensures Evaluation(CountsAfter(map[], before + front), c).fired
       <==> c.rule.consecutiveSamples <= |Own(front, c.ruleId, c.resourceId)| + 1
  {
    FiresIffLastKViolate(before + front, c);
    OwnAppends(before, front, c.ruleId, c.resourceId);
    var past, run := Own(before, c.ruleId, c.resourceId), Own(front, c.ruleId, c.resourceId) + [c.value];
    assert past + Own(front, c.ruleId, c.resourceId) + [c.value] == past + run;
    RunDecidesTail(c.rule, past, run, c.rule.consecutiveSamples);
  }

  lemma WellKeyedFront(calls: seq<Call>, ruleId: string, rule: ThresholdRule)
    requires calls != [] && WellKeyed(calls, ruleId, rule)
    ensures WellKeyed(calls[..|calls| - 1], ruleId, rule)
    ensures calls[|calls| - 1].ruleId == ruleId ==> calls[|calls| - 1].rule == rule
  {
  }

  /**
   * A fresh violating run of length L, however interleaved with other keys,
   * fires max(0, L - k + 1) times.
   */
  lemma {:induction false} RunFiresPastThreshold(
    before: seq<Call>, during: seq<Call>, ruleId: string, resourceId: string, rule: ThresholdRule)
    requires WellKeyed(before + during, ruleId, rule) && rule.consecutiveSamples >= 1
    requires EndsCalm(rule, Own(before, ruleId, resourceId))
    requires AllViolate(rule, Own(during, ruleId, resourceId))
    ensures Firings(before, during, ruleId, resourceId)
         == MaxInt(0, |Own(during, ruleId, resourceId)| - rule.consecutiveSamples + 1)
  {
    hide Evaluation, WellKeyed, CountsAfter, Own, Firings, AllViolate, EndsCalm;
    if during == [] {
      NothingFires(before, ruleId, resourceId);
    } else {
      var front, c := during[..|during| - 1], during[|during| - 1];
      assert during == front + [c] && before + during == (before + front) + [c];
      assert (before + during)[..|before + during| - 1] == before + front;
      WellKeyedFront(before + during, ruleId, rule);
      OwnSnoc(front, c, ruleId, resourceId);
      FiringsSnoc(before, front, c, ruleId, resourceId);
      if c.ruleId == ruleId && c.resourceId == resourceId {
        RunPrefix(rule, Own(front, ruleId, resourceId), c.value);
        RunFiresPastThreshold(before, front, ruleId, resourceId, rule);
        FiresFromKthOn(before, front, c);
      } else {
        RunFiresPastThreshold(before, front, ruleId, resourceId, rule);
      }
    }
  }

  lemma NothingFires(before: seq<Call>, ruleId: string, resourceId: string)
    ensures Firings(before, [], ruleId, resourceId) == 0 == |Own([], ruleId, resourceId)|
  {
  }

  lemma OwnSnoc(calls: seq<Call>, c: Call, ruleId: string, resourceId: string)
    ensures Own(calls + [c], ruleId, resourceId)
         == if c.ruleId == ruleId && c.resourceId == resourceId
            then Own(calls, ruleId, resourceId) + [c.value] else Own(calls, ruleId, resourceId)
  {
    assert (calls + [c])[..|calls|] == calls;
    assert Own(calls, ruleId, resourceId) + [] == Own(calls, ruleId, resourceId);
  }

  lemma FiringsSnoc(before: seq<Call>, front: seq<Call>, c: Call, ruleId: string, resourceId: string)
    ensures Firings(before, front + [c], ruleId, resourceId)
         == Firings(before, front, ruleId, resourceId)
            + if c.ruleId == ruleId && c.resourceId == resourceId
                 && Evaluation(CountsAfter(map[], before + front), c).fired then 1 else 0
  {
    hide Evaluation, CountsAfter;
    assert (front + [c])[..|front|] == front;
  }

  lemma RunPrefix(rule: ThresholdRule, values: seq<real>, v: real)
    requires AllViolate(rule, values + [v])
    ensures AllViolate(rule, values)
  {
    assert forall i :: 0 <= i < |values| ==> (values + [v])[i] == values[i];
  }

  // ----- two rules under one id -----

  /** Two rules on one metric that name the same event type, hence share a counter. */
  predicate Share(a: ThresholdRule, b: ThresholdRule, s: MetricSample) {
    a.eventType == b.eventType && a.metric == b.metric == s.metric
  }

  /** A sample repeated `n` times. */
  function Repeated(s: MetricSample, n: nat): seq<MetricSample> { seq(n, _ => s) }

  lemma CallsOfTwo(a: ThresholdRule, b: ThresholdRule, s: MetricSample)
    requires Share(a, b, s)
    ensures CallsOf([a, b], s) == [CallFor(a, s), CallFor(b, s)]
  {
    assert [a, b][..1] == [a] && [a][..0] == [];
    assert CallsOf([a], s) == [CallFor(a, s)];
  }

  lemma BatchOfTwo(a: ThresholdRule, b: ThresholdRule, s: MetricSample, n: nat)
    requires Share(a, b, s) && n > 0
    ensures CallsOfBatch([a, b], Repeated(s, n))
         == CallsOfBatch([a, b], Repeated(s, n - 1)) + [CallFor(a, s), CallFor(b, s)]
  {
    CallsOfTwo(a, b, s);
    assert Repeated(s, n)[..n - 1] == Repeated(s, n - 1);
  }

  lemma TwoCalls(calls: seq<Call>, x: Call, y: Call)
    ensures var counts := CountsAfter(map[], calls);
            var mid := CountsAfter(map[], calls + [x]);
            && mid == counts[Key(x.ruleId, x.resourceId) := Evaluation(counts, x).consecutiveCount]
            && CountsAfter(map[], calls + [x, y]) == mid[Key(y.ruleId, y.resourceId) := Evaluation(mid, y).consecutiveCount]
            && Emitted(map[], calls + [x, y])
               == Emitted(map[], calls) + (if Emits(Evaluation(counts, x)) then [x] else [])
                  + (if Emits(Evaluation(mid, y)) then [y] else [])
  {
    assert (calls + [x])[..|calls|] == calls && (calls + [x, y])[..|calls| + 1] == calls + [x];
  }

  /**
   * A shared counter can starve a rule: while every sample violates the second
   * rule and not the first, neither emits, however long the run.
   */
  lemma {:induction false} SharedEventTypeStarvesARule(a: ThresholdRule, b: ThresholdRule, s: MetricSample, n: nat)
    requires Share(a, b, s) && !Violates(a, s.value) && Violates(b, s.value)
    requires a.consecutiveSamples >= 1 && b.consecutiveSamples >= 2
    ensures Emitted(map[], CallsOfBatch([a, b], Repeated(s, n))) == []
  {
    if n > 0 {
      SharedEventTypeStarvesARule(a, b, s, n - 1);
      BatchOfTwo(a, b, s, n);
      TwoCalls(CallsOfBatch([a, b], Repeated(s, n - 1)), CallFor(a, s), CallFor(b, s));
      hide CallsOfBatch, CountsAfter, Emitted, Key;
    }
  }

  /**
   * A shared counter can also run ahead: while every sample violates both rules
   * it counts each of them twice, so after n samples it stands at 2n.
   */
  lemma {:induction false} SharedEventTypeCountsTwice(a: ThresholdRule, b: ThresholdRule, s: MetricSample, n: nat)
    requires Share(a, b, s) && Violates(a, s.value) && Violates(b, s.value)
    ensures Lookup(CountsAfter(map[], CallsOfBatch([a, b], Repeated(s, n))), Key(a.eventType, s.resourceId)) == 2 * n
  {
    if n > 0 {
      SharedEventTypeCountsTwice(a, b, s, n - 1);
      BatchOfTwo(a, b, s, n);
      TwoCalls(CallsOfBatch([a, b], Repeated(s, n - 1)), CallFor(a, s), CallFor(b, s));
      hide CallsOfBatch, CountsAfter, Emitted, Key;
    }
  }
}

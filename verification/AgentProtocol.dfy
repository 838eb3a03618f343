/**
 * The flush-and-acknowledge protocol between agent and gateway over a network
 * that loses, delays and repeats messages, across restarts of the agent.
 * Flushes may overlap; every attempt is a call of its own, and takes its
 * acknowledgement only from the reply to that call.  The gateway de-duplicates
 * by sequence.
 */
module AgentProtocol {
  import opened Prelude
  import opened AgentBuffer
  import Runs = AgentBufferRuns
  import opened AgentFlush

  /** A batch under its first item's sequence: a request on the wire, or the job made from it. */
  datatype Job = Job(sequence: int, items: seq<Item>)

  /**
   * The agent: its buffer and clock, the next sequence it last saved, and the
   * calls whose reply it still waits for.  The network: every request ever sent,
   * a call being its position, and the calls the gateway has replied to.  The
   * gateway: every job it created and the job ids it still remembers.  For the
   * statements: every item ever enqueued, how many before the last start, and
   * what acknowledgements removed.
   */
  datatype System = System(
    buf: Buffer, clock: int, saved: int, waiting: set<nat>,
    requests: seq<Job>, replied: set<nat>, jobs: seq<Job>, remembered: set<int>,
    enqueued: seq<Item>, born: nat, confirmed: seq<Item>)

  datatype Step =
    | Collect(samples: seq<Sample>, now: int)   // enqueue, with overflow drops
    | Sweep(now: int)                           // drop by age
    | Send                                      // peek and send: a new call
    | Fail(call: nat)                           // request or reply lost, or timed out
    | Arrive(call: nat)                         // the gateway handles a request, now or again, and replies
    | Forget(sequence: int)                     // a completed job's id leaves the queue
    | Confirm(call: nat)                        // the reply to the call arrives: acknowledge
    | Save                                      // persist the next sequence
    | Restart                                   // the process ends and starts from what was saved

  function Initial(maxBytes: int): System {
    System(NewAt(maxBytes, 1), 0, 0, {}, [], {}, [], {}, [], 0, [])
  }

  predicate Acceptable(r: Job) { Admissible(AllSamples(r.items)) }

  predicate Enabled(s: System, step: Step) {
    match step
    case Collect(_, now) => now >= s.clock
    case Sweep(now) => now >= s.clock
    case Send => Outgoing(s.buf) != []
    case Fail(call) => call in s.waiting
    case Arrive(call) => call < |s.requests| && Acceptable(s.requests[call])
    case Forget(_) => true
    case Confirm(call) => call in s.waiting && call in s.replied && call < |s.requests|
    case Save => true
    case Restart => true
  }

  /** What an acknowledgement takes out of the buffer. */
  function TakenBy(b: Buffer, sequence: int): seq<Item> {
    b.items[..|b.items| - |Acked(b, sequence).items|]
  }

  function Apply(s: System, step: Step): System
    requires Enabled(s, step)
  {
    match step
    case Collect(samples, now) =>
      s.(buf := Enqueued(s.buf, samples, now), clock := now,
         enqueued := s.enqueued + [Item(s.buf.nextSeq, samples, now)])
    case Sweep(now) => s.(buf := Expired(s.buf, TTL, now), clock := now)
    case Send =>
      NonEmptyBuffer(s.buf);
      s.(waiting := s.waiting + {|s.requests|},
         requests := s.requests + [Job(s.buf.items[0].sequence, Batch(s.buf, FLUSH_ITEMS))])
    case Fail(call) => s.(waiting := s.waiting - {call})
    case Arrive(call) =>
      var r, t := s.requests[call], s.(replied := s.replied + {call});
      if r.sequence in s.remembered then t
      else t.(jobs := s.jobs + [r], remembered := s.remembered + {r.sequence})
    case Forget(sequence) => s.(remembered := s.remembered - {sequence})
    case Confirm(call) =>
      var q := s.requests[call].sequence;
      s.(buf := Acked(s.buf, q), waiting := s.waiting - {call}, confirmed := s.confirmed + TakenBy(s.buf, q))
    case Save => s.(saved := MaxInt(s.saved, s.buf.nextSeq))
    case Restart =>
      s.(buf := NewAt(s.buf.maxBytes, Resumed(s)), waiting := {}, born := |s.enqueued|)
  }

  /** The sequence with which the agent would start again. */
  function Resumed(s: System): int { MaxInt(s.saved, 1) }

  lemma NonEmptyBuffer(b: Buffer)
    ensures Outgoing(b) != [] ==> b.items != []
  {
    EmptyBufferSendsNothing(b);
  }

  function Exec(s: System, steps: seq<Step>): System
    requires Legal(s, steps)
    decreases steps
  {
    if steps == [] then s else Exec(Apply(s, steps[0]), steps[1..])
  }

  predicate Legal(s: System, steps: seq<Step>)
    decreases steps
  {
    steps == [] || (Enabled(s, steps[0]) && Legal(Apply(s, steps[0]), steps[1..]))
  }

  // ----- the agent's side is the buffer and the flush -----

  /** What a step does to the buffer, as the buffer's own operation. */
  function OpOf(s: System, step: Step): seq<Runs.Op>
    requires Enabled(s, step)
  {
    match step
    case Collect(samples, now) => [Runs.Put(samples, now)]
    case Sweep(now) => [Runs.Sweep(86_400_000_000_000, now)]
    case Confirm(call) => [Runs.Confirm(s.requests[call].sequence)]
    case _ => []
  }

  function OpsOf(s: System, steps: seq<Step>): seq<Runs.Op>
    requires Legal(s, steps)
    decreases steps
  {
    if steps == [] then [] else OpOf(s, steps[0]) + OpsOf(Apply(s, steps[0]), steps[1..])
  }

  lemma StepFollowsItsOp(s: System, step: Step, start: int, done: seq<Runs.Op>)
    requires Enabled(s, step) && step != Restart && s.buf == Runs.Run(s.buf.maxBytes, start, done).buf
    ensures var t := Apply(s, step);
            t.buf.maxBytes == s.buf.maxBytes && t.buf == Runs.Run(s.buf.maxBytes, start, done + OpOf(s, step)).buf
  {
    hide Excess, TotalBytes, Kept, Outgoing, Acceptable, TakenBy;
    var ops := done + OpOf(s, step);
    if OpOf(s, step) == [] {
      assert ops == done;
    } else {
      assert ops[..|ops| - 1] == done && ops[|ops| - 1] == OpOf(s, step)[0];
    }
  }

  /**
   * From a start of the agent to the next restart, its buffer is in the state to
   * which its own operations take a new one, and acknowledgements, sweeps and
   * enqueues are the only ones: whatever holds of the buffer's runs holds here.
   */
  lemma {:induction false} BufferFollowsItsRun(s: System, steps: seq<Step>, start: int, done: seq<Runs.Op>)
    requires Legal(s, steps) && Restart !in steps && s.buf == Runs.Run(s.buf.maxBytes, start, done).buf
    ensures Exec(s, steps).buf == Runs.Run(s.buf.maxBytes, start, done + OpsOf(s, steps)).buf
    decreases steps
  {
    hide Apply, Enabled, OpOf, Runs.Run;
    if steps == [] {
      assert done + OpsOf(s, steps) == done;
    } else {
      assert steps[0] in steps;
      StepFollowsItsOp(s, steps[0], start, done);
      BufferFollowsItsRun(Apply(s, steps[0]), steps[1..], start, done + OpOf(s, steps[0]));
      assert done + OpsOf(s, steps) == done + OpOf(s, steps[0]) + OpsOf(Apply(s, steps[0]), steps[1..]);
    }
  }

  /** In particular from the first start, and from any restart with the sequence saved until then. */
  lemma BufferSinceStart(maxBytes: int, s: System, steps: seq<Step>)
    requires Restart !in steps
    ensures Legal(Initial(maxBytes), steps) ==>
              Exec(Initial(maxBytes), steps).buf == Runs.Run(maxBytes, 1, OpsOf(Initial(maxBytes), steps)).buf
    ensures Legal(Apply(s, Restart), steps) ==>
              Exec(Apply(s, Restart), steps).buf
              == Runs.Run(s.buf.maxBytes, s.saved, OpsOf(Apply(s, Restart), steps)).buf
  {
    hide Exec, Legal, OpsOf;
    assert forall t :: Legal(t, steps) ==> [] + OpsOf(t, steps) == OpsOf(t, steps);
    if Legal(Initial(maxBytes), steps) {
      BufferFollowsItsRun(Initial(maxBytes), steps, 1, []);
    }
    if Legal(Apply(s, Restart), steps) {
      BufferFollowsItsRun(Apply(s, Restart), steps, s.saved, []);
    }
  }

  /** A call carries what a flush of the buffer would send: the request for its head, of at most 100 items. */
  lemma CallCarriesTheFlushRequest(s: System)
    requires Enabled(s, Send)
    ensures var t := Apply(s, Send);
            && |t.requests| == |s.requests| + 1 && t.requests[..|s.requests|] == s.requests
            && (var r := t.requests[|s.requests|];
                && HeadRequest(s.buf) == Request(r.sequence, AllSamples(r.items))
                && r.items <= s.buf.items && |r.items| == (if |s.buf.items| < 100 then |s.buf.items| else 100))
            && t.waiting == s.waiting + {|s.requests|} && t.buf == s.buf
  {
    NonEmptyBuffer(s.buf);
    hide AllSamples;
  }

  // ----- safe restarts -----

  /** Which requests matter: every one sent, or those the gateway would not refuse. */
  datatype Scope = EverySent | OnlyAcceptable

  predicate Counts(r: Job, scope: Scope) { scope.EverySent? || Acceptable(r) }

  /** The saved sequence is beyond every sequence that was ever sent. */
  predicate SafeToRestart(s: System, scope: Scope) {
    forall r :: r in s.requests && Counts(r, scope) ==> r.sequence < Resumed(s)
  }

  predicate Allowed(s: System, step: Step, scope: Scope) { Enabled(s, step) && (step == Restart ==> SafeToRestart(s, scope)) }

  /** A legal run in which every restart is safe. */
  predicate Safe(s: System, steps: seq<Step>, scope: Scope)
    decreases steps
  {
    steps == [] || (Allowed(s, steps[0], scope) && Safe(Apply(s, steps[0]), steps[1..], scope))
  }

  // ----- the invariant -----

  /** The sequence with which the current run of the agent started. */
  function Base(s: System): int { s.buf.nextSeq - (|s.enqueued| - s.born) }

  ghost predicate BufferInv(s: System) {
    && s.born <= |s.enqueued| && |s.buf.items| <= |s.enqueued| - s.born
    && s.buf.items == s.enqueued[|s.enqueued| - |s.buf.items|..]
    && (forall i :: s.born <= i < |s.enqueued| ==> s.enqueued[i].sequence == s.buf.nextSeq - |s.enqueued| + i)
    && (forall i :: 0 <= i < |s.enqueued| ==> s.enqueued[i].createdAt <= s.clock)
    && Runs.InAgeOrder(s.buf.items)
    && 1 <= Base(s) && s.saved <= s.buf.nextSeq
  }

  /** No call waits for a sequence above the oldest held item's, or from before the last start. */
  ghost predicate WaitingInv(s: System, scope: Scope) {
    forall c :: c in s.waiting ==>
      && c < |s.requests|
      && (Counts(s.requests[c], scope) ==> Base(s) <= s.requests[c].sequence <= s.buf.nextSeq - |s.buf.items|)
  }

  ghost predicate RequestInv(s: System, r: Job) {
    && r.items != [] && r.items[0].sequence == r.sequence < s.buf.nextSeq && r.items[0].createdAt <= s.clock
    && (r.sequence >= Base(s) ==> r.items[0] == s.enqueued[|s.enqueued| - (s.buf.nextSeq - r.sequence)])
  }

  /** Two requests under one sequence begin with the same item. */
  ghost predicate RequestsAgree(s: System, scope: Scope) {
    forall r, q :: r in s.requests && q in s.requests && Counts(r, scope) && Counts(q, scope)
      && r.sequence == q.sequence && r.items != [] && q.items != []
      ==> r.items[0] == q.items[0]
  }

  ghost predicate HasJob(s: System, sequence: int) { exists j :: j in s.jobs && j.sequence == sequence }

  /** The gateway made a job, under the item's own sequence, that begins with the item. */
  ghost predicate WasAccepted(s: System, x: Item) {
    exists j :: j in s.jobs && j.sequence == x.sequence && j.items != [] && j.items[0] == x
  }

  ghost predicate GatewayInv(s: System) {
    && (forall j :: j in s.jobs ==> j in s.requests && Acceptable(j))
    && (forall c :: c in s.replied ==> c < |s.requests| && Acceptable(s.requests[c]) && HasJob(s, s.requests[c].sequence))
    && (forall q :: q in s.remembered ==> HasJob(s, q))
    && (forall x :: x in s.confirmed ==> WasAccepted(s, x))
  }

  ghost predicate Inv(s: System, scope: Scope) {
    && BufferInv(s) && WaitingInv(s, scope)
    && (forall r :: r in s.requests && Counts(r, scope) ==> RequestInv(s, r))
    && RequestsAgree(s, scope) && GatewayInv(s)
  }

  lemma JobsOnlyGrow(s: System, t: System)
    requires s.jobs <= t.jobs
    ensures forall a :: HasJob(s, a) ==> HasJob(t, a)
    ensures forall x :: WasAccepted(s, x) ==> WasAccepted(t, x)
  {
    assert forall j :: j in s.jobs ==> j in t.jobs;
  }

  /** The agent's buffer has moved on; nothing else has changed. */
  predicate MovedOn(s: System, t: System) {
    && t == s.(buf := t.buf, clock := t.clock, enqueued := t.enqueued)
    && t.clock >= s.clock && s.enqueued <= t.enqueued && t.buf.nextSeq >= s.buf.nextSeq
    && |t.enqueued| - t.buf.nextSeq == |s.enqueued| - s.buf.nextSeq
    && t.buf.nextSeq - |t.buf.items| >= s.buf.nextSeq - |s.buf.items|
  }

  lemma RequestMovesOn(s: System, t: System, r: Job)
    requires MovedOn(s, t) && s.born <= |s.enqueued| && RequestInv(s, r)
    ensures RequestInv(t, r)
  {
  }

  lemma MovingOnKeeps(s: System, t: System, scope: Scope)
    requires Inv(s, scope) && MovedOn(s, t) && BufferInv(t)
    ensures Inv(t, scope)
  {
    hide HasJob, WasAccepted, Acceptable, RequestInv, Runs.InAgeOrder;
    JobsOnlyGrow(s, t);
    forall r | r in t.requests && Counts(r, scope) ensures RequestInv(t, r) {
      RequestMovesOn(s, t, r);
    }
  }

  lemma CollectMovesOn(s: System, step: Step)
    requires BufferInv(s) && Enabled(s, step) && step.Collect?
    ensures MovedOn(s, Apply(s, step)) && BufferInv(Apply(s, step))
  {
    hide TotalBytes, Excess, Acceptable;
    var t := Apply(s, step);
    var items := s.buf.items + [Item(s.buf.nextSeq, step.samples, step.now)];
    assert items == t.enqueued[|t.enqueued| - |items|..];
  }

  lemma CollectKeeps(s: System, step: Step, scope: Scope)
    requires Inv(s, scope) && Enabled(s, step) && step.Collect?
    ensures Inv(Apply(s, step), scope)
  {
    hide BufferInv, WaitingInv, RequestInv, RequestsAgree, GatewayInv, MovedOn, Apply, Enabled;
    CollectMovesOn(s, step);
    MovingOnKeeps(s, Apply(s, step), scope);
  }

  lemma RemovalMovesOn(s: System, why: Reason, b: Buffer, now: int)
    requires BufferInv(s) && now >= s.clock && Runs.TakesPrefix(s.buf.items, why)
    requires b.items == Kept(s.buf.items, why) && b.nextSeq == s.buf.nextSeq
    ensures var t := s.(buf := b, clock := now); MovedOn(s, t) && BufferInv(t)
  {
    hide Kept, Goes;
    Runs.KeptIsSuffix(s.buf.items, why);
  }

  /** A removal that takes a prefix leaves the rest of the invariant alone. */
  lemma RemovalKeeps(s: System, why: Reason, b: Buffer, now: int, scope: Scope)
    requires Inv(s, scope) && now >= s.clock && Runs.TakesPrefix(s.buf.items, why)
    requires b.items == Kept(s.buf.items, why) && b.nextSeq == s.buf.nextSeq
    ensures Inv(s.(buf := b, clock := now), scope)
  {
    hide BufferInv, WaitingInv, RequestInv, RequestsAgree, GatewayInv, MovedOn, Kept;
    RemovalMovesOn(s, why, b, now);
    MovingOnKeeps(s, s.(buf := b, clock := now), scope);
  }

  lemma SweepKeeps(s: System, step: Step, scope: Scope)
    requires Inv(s, scope) && Enabled(s, step) && step.Sweep?
    ensures Inv(Apply(s, step), scope)
  {
    hide Kept, TotalBytes, HasJob, WasAccepted, Acceptable;
    RemovalKeeps(s, CreatedBefore(step.now - TTL), Expired(s.buf, TTL, step.now), step.now, scope);
  }

  /** A request for the oldest held item, as `Send` makes it. */
  predicate IsForHead(s: System, r: Job) {
    s.buf.items != [] && r.items != [] && r.items[0] == s.buf.items[0] && r.sequence == r.items[0].sequence
  }

  lemma HeadRequestFits(s: System, r: Job)
    requires BufferInv(s) && IsForHead(s, r)
    ensures RequestInv(s, r) && Base(s) <= r.sequence == s.buf.nextSeq - |s.buf.items|
  {
    HeldSequences(s);
    assert s.buf.items[0] == s.enqueued[|s.enqueued| - |s.buf.items|];
  }

  lemma AgreesWithNew(s: System, r: Job, scope: Scope)
    requires (forall q :: q in s.requests && Counts(q, scope) ==> RequestInv(s, q)) && RequestsAgree(s, scope)
    requires RequestInv(s, r) && r.sequence >= Base(s)
    ensures RequestsAgree(s.(requests := s.requests + [r]), scope)
  {
    hide Acceptable, Base;
    var t := s.(requests := s.requests + [r]);
    assert forall q :: q in t.requests <==> q in s.requests || q == r;
    assert forall q :: q in s.requests && Counts(q, scope) && q.sequence == r.sequence ==> q.items[0] == r.items[0];
  }

  lemma NewRequestKeeps(s: System, t: System, r: Job, scope: Scope)
    requires Inv(s, scope) && IsForHead(s, r)
    requires t == s.(waiting := s.waiting + {|s.requests|}, requests := s.requests + [r])
    ensures Inv(t, scope)
  {
    HeadRequestFits(s, r);
    AgreesWithNew(s, r, scope);
    hide HasJob, WasAccepted, Acceptable, IsForHead, Runs.InAgeOrder;
    assert RequestsAgree(t, scope) == RequestsAgree(s.(requests := s.requests + [r]), scope);
    assert forall c: nat :: c < |s.requests| ==> t.requests[c] == s.requests[c];
    SameBuffer(s, t);
    JobsOnlyGrow(s, t);
    hide BufferInv, RequestInv, RequestsAgree;
    assert forall q :: q in t.requests <==> q in s.requests || q == r;
  }

  lemma SameBuffer(s: System, t: System)
    requires t == s.(waiting := t.waiting, requests := t.requests)
    ensures BufferInv(t) == BufferInv(s) && Base(t) == Base(s)
    ensures forall r :: RequestInv(t, r) == RequestInv(s, r)
  {
  }

  lemma SendKeeps(s: System, scope: Scope)
    requires Inv(s, scope) && Enabled(s, Send)
    ensures Inv(Apply(s, Send), scope)
  {
    NonEmptyBuffer(s.buf);
    hide Outgoing, Inv, Acceptable;
    var r := Job(s.buf.items[0].sequence, Batch(s.buf, FLUSH_ITEMS));
    NewRequestKeeps(s, Apply(s, Send), r, scope);
  }

  lemma ArriveKeeps(s: System, call: nat, scope: Scope)
    requires Inv(s, scope) && Enabled(s, Arrive(call))
    ensures Inv(Apply(s, Arrive(call)), scope)
  {
    hide Acceptable, WasAccepted, RequestInv, RequestsAgree, BufferInv, WaitingInv;
    var t, r := Apply(s, Arrive(call)), s.requests[call];
    JobsOnlyGrow(s, t);
    assert r.sequence !in s.remembered ==> t.jobs[|s.jobs|] == r;
    assert HasJob(t, r.sequence);
    assert r in s.requests;
    SameAgent(s, t, scope);
  }

  /** A step of the gateway alone changes nothing that the agent's half of the invariant speaks of. */
  lemma SameAgent(s: System, t: System, scope: Scope)
    requires t == s.(replied := t.replied, jobs := t.jobs, remembered := t.remembered)
    ensures BufferInv(t) == BufferInv(s) && WaitingInv(t, scope) == WaitingInv(s, scope)
    ensures RequestsAgree(t, scope) == RequestsAgree(s, scope)
    ensures forall r :: RequestInv(t, r) == RequestInv(s, r)
  {
  }

  /** The job behind a reply begins with the item whose sequence it names. */
  lemma RepliedJob(s: System, call: nat, scope: Scope) returns (j: Job)
    requires Inv(s, scope) && call in s.replied
    ensures call < |s.requests| && Counts(s.requests[call], scope)
    ensures j in s.jobs && j.sequence == s.requests[call].sequence && RequestInv(s, j)
  {
    hide Acceptable, RequestInv, BufferInv, WaitingInv, RequestsAgree;
    assert HasJob(s, s.requests[call].sequence);
    j :| j in s.jobs && j.sequence == s.requests[call].sequence;
  }

  lemma HeldSequences(s: System)
    requires BufferInv(s)
    ensures forall i :: 0 <= i < |s.buf.items| ==> s.buf.items[i].sequence == s.buf.nextSeq - |s.buf.items| + i
  {
    var k := |s.enqueued| - |s.buf.items|;
    assert forall i :: 0 <= i < |s.buf.items| ==> s.buf.items[i] == s.enqueued[k + i];
  }

  /** A confirmed call names at most the oldest held item's sequence. */
  lemma AwaitedIsAtMostOldest(s: System, call: nat, scope: Scope)
    requires Inv(s, scope) && Enabled(s, Confirm(call))
    ensures Base(s) <= s.requests[call].sequence <= s.buf.nextSeq - |s.buf.items|
  {
    hide BufferInv, GatewayInv, RequestsAgree, RequestInv, Acceptable;
    var _ := RepliedJob(s, call, scope);
  }

  /** If the awaited sequence covers the oldest held item, a job began with that item. */
  lemma HeadWasAccepted(s: System, call: nat, scope: Scope)
    requires Inv(s, scope) && Enabled(s, Confirm(call))
    requires s.buf.items != [] && s.buf.items[0].sequence <= s.requests[call].sequence
    ensures WasAccepted(s, s.buf.items[0])
  {
    var j := RepliedJob(s, call, scope);
    HeldSequences(s);
    AwaitedIsAtMostOldest(s, call, scope);
    hide RequestsAgree, GatewayInv, HasJob, WaitingInv, Acceptable, Runs.InAgeOrder;
    assert s.buf.items[0] == s.enqueued[|s.enqueued| - |s.buf.items|];
    assert j.items[0] == s.buf.items[0];
  }

  /** An acknowledgement takes at most the oldest held item, which its job began with. */
  lemma ConfirmTakesAcceptedItem(s: System, call: nat, scope: Scope)
    requires Inv(s, scope) && Enabled(s, Confirm(call))
    ensures Runs.TakesPrefix(s.buf.items, AckedUpTo(s.requests[call].sequence))
    ensures forall x :: x in TakenBy(s.buf, s.requests[call].sequence) ==> WasAccepted(s, x)
  {
    var q, items := s.requests[call].sequence, s.buf.items;
    HeldSequences(s);
    AwaitedIsAtMostOldest(s, call, scope);
    if items != [] && items[0].sequence <= q {
      HeadWasAccepted(s, call, scope);
    }
    hide Inv, WasAccepted, Kept, TotalBytes;
    Runs.KeptIsSuffix(items, AckedUpTo(q));
    forall x | x in TakenBy(s.buf, q) ensures WasAccepted(s, x) {
      var i :| 0 <= i < |TakenBy(s.buf, q)| && TakenBy(s.buf, q)[i] == x;
      assert items[i] == x && Goes(items[i], AckedUpTo(q));
    }
  }

  /** A call that ends, with what it confirmed having been accepted. */
  lemma CallEndKeeps(s: System, call: nat, taken: seq<Item>, scope: Scope)
    requires Inv(s, scope) && forall x :: x in taken ==> WasAccepted(s, x)
    ensures Inv(s.(waiting := s.waiting - {call}, confirmed := s.confirmed + taken), scope)
  {
    hide HasJob, WasAccepted, Acceptable;
    var t := s.(waiting := s.waiting - {call}, confirmed := s.confirmed + taken);
    JobsOnlyGrow(s, t);
    assert forall q :: RequestInv(s, q) ==> RequestInv(t, q);
  }

  lemma ConfirmKeeps(s: System, call: nat, scope: Scope)
    requires Inv(s, scope) && Enabled(s, Confirm(call))
    ensures Inv(Apply(s, Confirm(call)), scope)
  {
    hide Inv, Kept, TotalBytes, TakenBy, WasAccepted, Acceptable;
    var q := s.requests[call].sequence;
    ConfirmTakesAcceptedItem(s, call, scope);
    RemovalKeeps(s, AckedUpTo(q), Acked(s.buf, q), s.clock, scope);
    var m := s.(buf := Acked(s.buf, q), clock := s.clock);
    JobsOnlyGrow(s, m);
    CallEndKeeps(m, call, TakenBy(s.buf, q), scope);
  }

  lemma RestartKeeps(s: System, scope: Scope)
    requires Inv(s, scope) && SafeToRestart(s, scope)
    ensures Inv(Apply(s, Restart), scope)
  {
    hide HasJob, WasAccepted, Acceptable;
    var t := Apply(s, Restart);
    JobsOnlyGrow(s, t);
    assert forall r :: r in s.requests && Counts(r, scope) ==> RequestInv(s, r);
  }

  lemma QuietStepKeeps(s: System, step: Step, scope: Scope)
    requires Inv(s, scope) && Enabled(s, step) && (step.Fail? || step.Forget? || step.Save?)
    ensures Inv(Apply(s, step), scope)
  {
    hide HasJob, WasAccepted, Acceptable;
    var t := Apply(s, step);
    JobsOnlyGrow(s, t);
    assert forall r :: RequestInv(s, r) ==> RequestInv(t, r);
  }

  lemma StepKeeps(s: System, step: Step, scope: Scope)
    requires Inv(s, scope) && Allowed(s, step, scope)
    ensures Inv(Apply(s, step), scope)
  {
    hide Inv, Apply, SafeToRestart, Acceptable;
    match step
    case Collect(_, _) => CollectKeeps(s, step, scope);
    case Sweep(_) => SweepKeeps(s, step, scope);
    case Send => SendKeeps(s, scope);
    case Arrive(call) => ArriveKeeps(s, call, scope);
    case Confirm(call) => ConfirmKeeps(s, call, scope);
    case Restart => RestartKeeps(s, scope);
    case Fail(_) => QuietStepKeeps(s, step, scope);
    case Forget(_) => QuietStepKeeps(s, step, scope);
    case Save => QuietStepKeeps(s, step, scope);
  }

  lemma {:induction false} InvHolds(s: System, steps: seq<Step>, scope: Scope)
    requires Inv(s, scope) && Safe(s, steps, scope)
    ensures Legal(s, steps) && Inv(Exec(s, steps), scope)
    decreases steps
  {
    hide Inv, Apply, Enabled, SafeToRestart;
    if steps != [] {
      StepKeeps(s, steps[0], scope);
      InvHolds(Apply(s, steps[0]), steps[1..], scope);
    }
  }

  lemma InitialInv(maxBytes: int, scope: Scope)
    ensures Inv(Initial(maxBytes), scope)
  {
    hide Acceptable, HasJob, WasAccepted, RequestInv, Counts;
    assert Initial(maxBytes).requests == [];
  }

  /** A state that some run with safe restarts reaches from a fresh start. */
  ghost predicate Reachable(s: System, maxBytes: int, scope: Scope) {
    exists steps :: Safe(Initial(maxBytes), steps, scope) && Legal(Initial(maxBytes), steps)
                    && s == Exec(Initial(maxBytes), steps)
  }

  lemma ReachableInv(s: System, maxBytes: int, scope: Scope)
    requires Reachable(s, maxBytes, scope)
    ensures Inv(s, scope) && s.buf.maxBytes == maxBytes
  {
    hide Inv, Safe, Legal, Exec;
    var steps :| Safe(Initial(maxBytes), steps, scope) && Legal(Initial(maxBytes), steps)
                 && s == Exec(Initial(maxBytes), steps);
    InitialInv(maxBytes, scope);
    InvHolds(Initial(maxBytes), steps, scope);
    BoundIsKept(Initial(maxBytes), steps);
  }

  lemma {:induction false} BoundIsKept(s: System, steps: seq<Step>)
    requires Legal(s, steps)
    ensures Exec(s, steps).buf.maxBytes == s.buf.maxBytes
    decreases steps
  {
    hide Apply, Enabled;
    if steps != [] {
      StepKeepsBound(s, steps[0]);
      BoundIsKept(Apply(s, steps[0]), steps[1..]);
    }
  }

  lemma StepKeepsBound(s: System, step: Step)
    requires Enabled(s, step)
    ensures Apply(s, step).buf.maxBytes == s.buf.maxBytes
  {
    hide Excess, TotalBytes, Kept, Outgoing, Acceptable, TakenBy;
  }

  // ----- the guarantees -----

  /** Every item an acknowledgement removed was accepted first, as the head of the job with its own sequence. */
  lemma ConfirmedWasAccepted(s: System, maxBytes: int, scope: Scope, x: Item)
    requires Reachable(s, maxBytes, scope) && x in s.confirmed
    ensures WasAccepted(s, x)
  {
    hide *;
    ReachableInv(s, maxBytes, scope);
    ConfirmedAreAccepted(s, scope);
  }

  lemma ConfirmedAreAccepted(s: System, scope: Scope)
    requires Inv(s, scope)
    ensures forall x :: x in s.confirmed ==> WasAccepted(s, x)
  {
    hide BufferInv, WaitingInv, RequestsAgree, RequestInv, WasAccepted, HasJob, Acceptable;
  }

  /** No accepted sequence is used for a different item: whatever is sent under it begins with the same one. */
  lemma AcceptedSequenceNamesOneItem(s: System, maxBytes: int, scope: Scope, j: Job, r: Job)
    requires Reachable(s, maxBytes, scope)
    requires j in s.jobs && r in s.requests && Counts(r, scope) && j.sequence == r.sequence
    ensures j.items != [] && r.items != [] && j.items[0] == r.items[0]
  {
    hide *;
    ReachableInv(s, maxBytes, scope);
    JobAgrees(s, scope, j, r);
  }

  lemma JobAgrees(s: System, scope: Scope, j: Job, r: Job)
    requires Inv(s, scope) && j in s.jobs && r in s.requests && Counts(r, scope) && j.sequence == r.sequence
    ensures j.items != [] && r.items != [] && j.items[0] == r.items[0]
  {
    hide BufferInv, WaitingInv, Acceptable, WasAccepted, HasJob;
    assert RequestInv(s, r) && RequestInv(s, j);
  }

  /** Saving the next sequence makes a restart safe until a newer sequence is sent. */
  lemma SavingMakesRestartSafe(s: System, maxBytes: int, scope: Scope)
    requires Reachable(s, maxBytes, scope)
    ensures SafeToRestart(Apply(s, Save), scope)
  {
    hide Inv, Reachable;
    ReachableInv(s, maxBytes, scope);
    SaveCoversRequests(s, scope);
  }

  lemma SaveCoversRequests(s: System, scope: Scope)
    requires Inv(s, scope)
    ensures SafeToRestart(Apply(s, Save), scope)
  {
    hide GatewayInv, RequestsAgree, WaitingInv, Acceptable;
    assert forall r :: r in s.requests && Counts(r, scope) ==> RequestInv(s, r);
  }

  // ----- a fresh start can send under any sequence from its own on -----

  const ONE_SAMPLE := [Sample("m", "r", 0.0)]

  /** The agent just started, with nothing buffered, nothing in flight and room for a sample. */
  ghost predicate JustStarted(s: System) {
    s.buf.items == [] && s.waiting == {} && s.buf.maxBytes >= BYTES_PER_SAMPLE
  }

  lemma SingleItemFits(b: Buffer, now: int)
    requires b.items == [] && b.maxBytes >= BYTES_PER_SAMPLE
    ensures Enqueued(b, ONE_SAMPLE, now).items == [Item(b.nextSeq, ONE_SAMPLE, now)]
    ensures Enqueued(b, ONE_SAMPLE, now).nextSeq == b.nextSeq + 1
  {
    var it := Item(b.nextSeq, ONE_SAMPLE, now);
    assert b.items + [it] == [it] && [it][..0] == [];
    assert TotalBytes([it]) == BYTES_PER_SAMPLE;
    ExcessStep([it], b.maxBytes);
  }

  lemma SingleItemExpires(b: Buffer, it: Item, now: int)
    requires b.items == [it] && it.createdAt < now - TTL
    ensures Expired(b, TTL, now).items == []
  {
    assert [it][..0] == [];
  }

  /** Uses up one sequence without sending it: enqueue an item and let it expire. */
  function BurnOne(now: int): seq<Step> { [Collect(ONE_SAMPLE, now), Sweep(now + TTL + 1)] }

  /** The network and the gateway are as they were. */
  predicate SameOutside(s: System, t: System) {
    t.requests == s.requests && t.replied == s.replied && t.jobs == s.jobs && t.remembered == s.remembered
  }

  /** `t` is `s` later on, with `n` sequences used up and nothing sent. */
  ghost predicate Advanced(s: System, t: System, n: nat) {
    JustStarted(t) && t.buf.nextSeq == s.buf.nextSeq + n && t.clock >= s.clock && t.saved == s.saved && SameOutside(s, t)
  }

  lemma ExecTwo(s: System, a: Step, b: Step)
    requires Enabled(s, a) && Enabled(Apply(s, a), b)
    ensures Legal(s, [a, b]) && Exec(s, [a, b]) == Apply(Apply(s, a), b)
  {
    hide Apply, Enabled;
    assert [a, b][1..] == [b] && [b][1..] == [];
    var m := Apply(s, a);
    assert Legal(Apply(m, b), []) && Exec(Apply(m, b), []) == Apply(m, b);
    assert Legal(m, [b]) && Exec(m, [b]) == Apply(m, b);
  }

  lemma BurnOneAdvances(s: System)
    requires JustStarted(s)
    ensures Legal(s, BurnOne(s.clock)) && Advanced(s, Exec(s, BurnOne(s.clock)), 1)
  {
    hide Excess, TotalBytes, Kept, Exec, Legal, Outgoing, Acceptable, TakenBy, AllSamples;
    var m := BurnHalfway(s);
    SingleItemExpires(m.buf, Item(s.buf.nextSeq, ONE_SAMPLE, s.clock), s.clock + TTL + 1);
    ExecTwo(s, Collect(ONE_SAMPLE, s.clock), Sweep(s.clock + TTL + 1));
  }

  lemma BurnHalfway(s: System) returns (m: System)
    requires JustStarted(s)
    ensures m == Apply(s, Collect(ONE_SAMPLE, s.clock))
    ensures m.buf.items == [Item(s.buf.nextSeq, ONE_SAMPLE, s.clock)] && m.buf.nextSeq == s.buf.nextSeq + 1
    ensures m.buf.maxBytes == s.buf.maxBytes && m.clock == s.clock && m.waiting == s.waiting
    ensures m.saved == s.saved && SameOutside(s, m)
  {
    hide Excess, TotalBytes, Kept, Outgoing, Acceptable, TakenBy;
    SingleItemFits(s.buf, s.clock);
    m := Apply(s, Collect(ONE_SAMPLE, s.clock));
  }

  lemma {:induction false} ExecAppends(s: System, a: seq<Step>, b: seq<Step>)
    requires Legal(s, a) && Legal(Exec(s, a), b)
    ensures Legal(s, a + b) && Exec(s, a + b) == Exec(Exec(s, a), b)
    decreases a
  {
    hide Apply, Enabled;
    if a == [] {
      assert a + b == b;
    } else {
      assert (a + b)[0] == a[0] && (a + b)[1..] == a[1..] + b;
      ExecAppends(Apply(s, a[0]), a[1..], b);
    }
  }

  lemma {:induction false} BurnReaches(s: System, n: nat) returns (steps: seq<Step>)
    requires JustStarted(s)
    ensures Legal(s, steps) && Advanced(s, Exec(s, steps), n) && Restart !in steps
    decreases n
  {
    hide Apply, Enabled;
    steps := [];
    if n > 0 {
      hide Legal, Exec;
      steps := BurnReaches(s, n - 1);
      var t := Exec(s, steps);
      BurnOneAdvances(t);
      ExecAppends(s, steps, BurnOne(t.clock));
      steps := steps + BurnOne(t.clock);
    }
  }

  /** One more call is waiting; it carried the item `x`, which is all the buffer holds. */
  ghost predicate SentOne(s: System, t: System, x: Item) {
    && t.requests == s.requests + [Job(x.sequence, [x])] && t.waiting == {|s.requests|} && t.buf.items == [x]
    && t.replied == s.replied && t.jobs == s.jobs && t.remembered == s.remembered && t.saved == s.saved
    && x.createdAt > s.clock && x.samples == ONE_SAMPLE
  }

  /** From a fresh start a new item can be sent under the next sequence. */
  lemma CanSendNext(s: System) returns (steps: seq<Step>, x: Item)
    requires JustStarted(s)
    ensures Legal(s, steps) && x.sequence == s.buf.nextSeq && SentOne(s, Exec(s, steps), x) && Restart !in steps
  {
    x := Item(s.buf.nextSeq, ONE_SAMPLE, s.clock + 1);
    steps := [Collect(ONE_SAMPLE, s.clock + 1), Send];
    hide Excess, TotalBytes, Kept, Outgoing, Batch, Exec, Legal, AllSamples, Acceptable, TakenBy;
    SingleItemFits(s.buf, s.clock + 1);
    var m := Apply(s, Collect(ONE_SAMPLE, s.clock + 1));
    SingleItemIsSent(m.buf, x);
    ExecTwo(s, Collect(ONE_SAMPLE, s.clock + 1), Send);
  }

  lemma SingleItemIsSent(b: Buffer, x: Item)
    requires b.items == [x] && x.samples == ONE_SAMPLE
    ensures Batch(b, FLUSH_ITEMS) == [x] && Outgoing(b) == ONE_SAMPLE
  {
    assert [x][..1] == [x] && [x][1..] == [];
    assert AllSamples([x]) == ONE_SAMPLE + AllSamples([]);
    assert ONE_SAMPLE + [] == ONE_SAMPLE;
  }

  lemma SingleItemIsAcceptable(x: Item)
    requires x.samples == ONE_SAMPLE
    ensures Acceptable(Job(x.sequence, [x]))
  {
    assert [x][..0] == [] && AllSamples([x]) == [] + ONE_SAMPLE;
  }

  /** From a fresh start some item can be sent under any sequence not below the next one. */
  lemma CanSendUnder(s: System, sequence: int) returns (steps: seq<Step>, x: Item)
    requires JustStarted(s) && sequence >= s.buf.nextSeq
    ensures Legal(s, steps) && x.sequence == sequence && SentOne(s, Exec(s, steps), x) && Restart !in steps
  {
    hide Legal, Exec, Apply, Enabled;
    var burn := BurnReaches(s, sequence - s.buf.nextSeq);
    var m := Exec(s, burn);
    var send;
    send, x := CanSendNext(m);
    ExecAppends(s, burn, send);
    steps := burn + send;
  }

  /** Without restarts a legal run is a safe one. */
  lemma {:induction false} NoRestartIsSafe(s: System, steps: seq<Step>, scope: Scope)
    requires Legal(s, steps) && Restart !in steps
    ensures Safe(s, steps, scope)
    decreases steps
  {
    hide Apply, Enabled, SafeToRestart;
    if steps != [] {
      assert steps[0] in steps && forall x :: x in steps[1..] ==> x in steps;
      NoRestartIsSafe(Apply(s, steps[0]), steps[1..], scope);
    }
  }

  lemma RestartStarts(s: System)
    requires s.buf.maxBytes >= BYTES_PER_SAMPLE
    ensures var t := Apply(s, Restart);
            JustStarted(t) && t.buf.nextSeq == Resumed(s) && t.clock == s.clock && SameOutside(s, t)
  {
  }

  // ----- exactly when a restart is safe -----

  /** However the run goes on after a restart, no two different items are sent under one sequence. */
  ghost predicate RestartNeverReuses(s: System, scope: Scope) {
    forall more :: Safe(Apply(s, Restart), more, scope) && Legal(Apply(s, Restart), more)
      ==> RequestsAgree(Exec(Apply(s, Restart), more), scope)
  }

  lemma SafeRestartNeverReuses(s: System, scope: Scope)
    requires Inv(s, scope) && SafeToRestart(s, scope)
    ensures RestartNeverReuses(s, scope)
  {
    RestartKeeps(s, scope);
    hide Inv, Legal, Safe, Exec, Apply, RequestsAgree;
    var t := Apply(s, Restart);
    forall more | Safe(t, more, scope) && Legal(t, more) ensures RequestsAgree(Exec(t, more), scope) {
      InvHolds(t, more, scope);
      InvHasAgreement(Exec(t, more), scope);
    }
  }

  lemma InvHasAgreement(s: System, scope: Scope)
    requires Inv(s, scope)
    ensures RequestsAgree(s, scope)
  {
    hide BufferInv, WaitingInv, GatewayInv, RequestInv, Acceptable;
  }

  /** Restarting at or below a sequence that was sent lets another item take that sequence. */
  lemma UnsafeRestartReusesSequence(s: System, scope: Scope, r: Job) returns (steps: seq<Step>, x: Item)
    requires Inv(s, scope) && r in s.requests && Counts(r, scope) && r.sequence >= Resumed(s)
    requires s.buf.maxBytes >= BYTES_PER_SAMPLE
    ensures var t := Apply(s, Restart);
            Legal(t, steps) && Restart !in steps && x.sequence == r.sequence
            && SentOne(t, Exec(t, steps), x) && !RequestsAgree(Exec(t, steps), scope)
  {
    RequestHead(s, scope, r);
    RestartStarts(s);
    hide Inv, Legal, Exec, Apply, RequestInv, Acceptable;
    var t := Apply(s, Restart);
    steps, x := CanSendUnder(t, r.sequence);
    SingleItemIsAcceptable(x);
    var u := Exec(t, steps);
    var newest := Job(x.sequence, [x]);
    assert newest in u.requests && r in u.requests && Counts(newest, scope);
    assert newest.items[0] == x != r.items[0];
  }

  lemma RequestHead(s: System, scope: Scope, r: Job)
    requires Inv(s, scope) && r in s.requests && Counts(r, scope)
    ensures r.items != [] && r.items[0].createdAt <= s.clock
  {
    hide BufferInv, WaitingInv, GatewayInv, RequestsAgree, Acceptable;
    assert RequestInv(s, r);
  }

  lemma UnsafeRestartReuses(s: System, scope: Scope)
    requires Inv(s, scope) && !SafeToRestart(s, scope) && s.buf.maxBytes >= BYTES_PER_SAMPLE
    ensures !RestartNeverReuses(s, scope)
  {
    hide Inv, Legal, Safe, Exec, Apply, RequestsAgree, Acceptable, SentOne;
    var r :| r in s.requests && Counts(r, scope) && r.sequence >= Resumed(s);
    var more, _ := UnsafeRestartReusesSequence(s, scope, r);
    NoRestartIsSafe(Apply(s, Restart), more, scope);
  }

  /** An unsafe state is one item away: collected and sent, with nothing saved yet. */
  lemma UnsafeIsReachable(maxBytes: int, scope: Scope) returns (s: System)
    requires maxBytes >= BYTES_PER_SAMPLE
    ensures Reachable(s, maxBytes, scope) && !SafeToRestart(s, scope)
  {
    hide Legal, Exec, Safe, Apply, Enabled, Acceptable;
    var steps, x := CanSendNext(Initial(maxBytes));
    SingleItemIsAcceptable(x);
    NoRestartIsSafe(Initial(maxBytes), steps, scope);
    s := Exec(Initial(maxBytes), steps);
    assert Job(x.sequence, [x]) in s.requests;
  }

  /**
   * In any state reached with safe restarts, a restart is safe exactly when what
   * was saved is beyond every sequence ever sent: then no continuation sends two different
   * items under one sequence, and otherwise some continuation does.
   */
  lemma RestartIsSafeIff(s: System, maxBytes: int, scope: Scope)
    requires Reachable(s, maxBytes, scope) && maxBytes >= BYTES_PER_SAMPLE
    ensures SafeToRestart(s, scope) <==> RestartNeverReuses(s, scope)
  {
    hide *;
    ReachableInv(s, maxBytes, scope);
    if SafeToRestart(s, scope) {
      SafeRestartNeverReuses(s, scope);
    } else {
      UnsafeRestartReuses(s, scope);
    }
  }

  // ----- exactly when an item is lost -----

  /** After a restart, whatever an acknowledgement removes was accepted. */
  ghost predicate RestartLosesNothing(s: System) {
    forall more :: Safe(Apply(s, Restart), more, OnlyAcceptable) && Legal(Apply(s, Restart), more) ==>
      forall x :: x in Exec(Apply(s, Restart), more).confirmed ==> WasAccepted(Exec(Apply(s, Restart), more), x)
  }

  /**
   * A call that carries the oldest held item, when the gateway handles it and
   * the reply arrives: the item leaves the buffer, and unless it had been
   * accepted before, it is lost if and only if the gateway still remembered the
   * sequence as a job of its own.
   */
  lemma ReplyLosesIff(s: System, call: nat)
    requires Enabled(s, Arrive(call)) && call in s.waiting
    requires s.buf.items != [] && s.requests[call].items != [] && s.requests[call].items[0] == s.buf.items[0]
    requires s.buf.items[0].sequence == s.requests[call].sequence
    ensures var x, steps := s.buf.items[0], [Arrive(call), Confirm(call)];
            Legal(s, steps) && x in Exec(s, steps).confirmed
            && (WasAccepted(Exec(s, steps), x) <==> s.requests[call].sequence !in s.remembered || WasAccepted(s, x))
  {
    hide Acceptable, Kept, TotalBytes, TakenBy, Excess, Outgoing, Exec, Legal;
    var x, m := s.buf.items[0], Apply(s, Arrive(call));
    ExecTwo(s, Arrive(call), Confirm(call));
    HeadIsTaken(s.buf, s.requests[call].sequence);
    var t := Apply(m, Confirm(call));
    assert t.jobs == m.jobs;
    assert m.jobs == s.jobs || m.jobs == s.jobs + [s.requests[call]];
    assert s.requests[call].sequence !in s.remembered ==> m.jobs[|s.jobs|] == s.requests[call];
    JobsOnlyGrow(s, t);
  }

  lemma HeadIsTaken(b: Buffer, sequence: int)
    requires b.items != [] && b.items[0].sequence <= sequence
    ensures b.items[0] in TakenBy(b, sequence)
  {
    FirstGoes(b.items, AckedUpTo(sequence));
    assert TakenBy(b, sequence)[0] == b.items[0];
  }

  lemma {:induction false} FirstGoes(items: seq<Item>, why: Reason)
    requires items != [] && Goes(items[0], why)
    ensures |Kept(items, why)| < |items|
  {
    if |items| > 1 {
      FirstGoes(items[..|items| - 1], why);
    }
  }

  /**
   * If an acceptable request was sent at or above the saved sequence, a new item
   * can take that sequence, reach a gateway that remembers it, and be removed by
   * the reply although no job ever began with it.
   */
  lemma UnsafeRestartLosesAnItem(s: System, call: nat) returns (steps: seq<Step>, x: Item)
    requires Inv(s, OnlyAcceptable) && call < |s.requests| && Acceptable(s.requests[call])
    requires s.requests[call].sequence >= Resumed(s) && s.buf.maxBytes >= BYTES_PER_SAMPLE
    ensures var t := Apply(s, Restart);
            Legal(t, steps) && Restart !in steps && x.sequence == s.requests[call].sequence
            && x in Exec(t, steps).confirmed && !WasAccepted(Exec(t, steps), x)
  {
    hide Legal, Exec, Acceptable, AllSamples, Inv, WasAccepted, TakenBy, Excess, Kept, TotalBytes, Outgoing;
    RestartStarts(s);
    var t := Apply(s, Restart);
    var late := OldMessageArrives(s, t, call);
    var m := Exec(t, late);
    var reuse;
    reuse, x := CanSendUnder(m, s.requests[call].sequence);
    var u := Exec(m, reuse);
    NewItemIsNotAccepted(u, x);
    SingleItemIsAcceptable(x);
    var newest := |m.requests|;
    assert u.requests[newest] == Job(x.sequence, [x]);
    ReplyLosesIff(u, newest);
    var last := [Arrive(newest), Confirm(newest)];
    ExecAppends(m, reuse, last);
    ExecAppends(t, late, reuse + last);
    steps := late + (reuse + last);
  }

  /** The gateway remembers the sequence already, or does once the old message arrives, late or again. */
  lemma OldMessageArrives(s: System, t: System, call: nat) returns (steps: seq<Step>)
    requires Inv(s, OnlyAcceptable) && call < |s.requests| && Acceptable(s.requests[call])
    requires JustStarted(t) && t.clock == s.clock && SameOutside(s, t)
    ensures Legal(t, steps) && Restart !in steps
    ensures var m := Exec(t, steps);
            JustStarted(m) && m.buf.nextSeq == t.buf.nextSeq && m.clock == s.clock && m.requests == s.requests
            && s.requests[call].sequence in m.remembered
            && forall j :: j in m.jobs ==> j.items != [] && j.items[0].createdAt <= s.clock
  {
    JobHeads(s, call);
    hide Inv, Acceptable, AllSamples;
    steps := [Arrive(call)];
    assert steps[1..] == [];
    assert Exec(t, steps) == Apply(t, Arrive(call));
  }

  lemma JobHeads(s: System, call: nat)
    requires Inv(s, OnlyAcceptable) && call < |s.requests| && Acceptable(s.requests[call])
    ensures forall j :: j in s.jobs || j == s.requests[call] ==> j.items != [] && j.items[0].createdAt <= s.clock
  {
    hide BufferInv, WaitingInv, RequestsAgree, Acceptable, WasAccepted, HasJob;
    assert s.requests[call] in s.requests;
    forall j | j in s.jobs || j == s.requests[call] ensures RequestInv(s, j) {
      assert j in s.requests && Counts(j, OnlyAcceptable);
    }
  }

  lemma NewItemIsNotAccepted(s: System, x: Item)
    requires forall j :: j in s.jobs && j.items != [] ==> j.items[0].createdAt < x.createdAt
    ensures !WasAccepted(s, x)
  {
  }

  /**
   * In any state reached with safe restarts, no continuation after a restart
   * loses an item if and only if the saved sequence is beyond every acceptable
   * request ever sent.
   */
  lemma RestartLosesIff(s: System, maxBytes: int)
    requires Reachable(s, maxBytes, OnlyAcceptable) && maxBytes >= BYTES_PER_SAMPLE
    ensures SafeToRestart(s, OnlyAcceptable) <==> RestartLosesNothing(s)
  {
    hide *;
    ReachableInv(s, maxBytes, OnlyAcceptable);
    if SafeToRestart(s, OnlyAcceptable) {
      SafeRestartLosesNothing(s);
    } else {
      UnsafeRestartLoses(s);
    }
  }

  lemma SafeRestartLosesNothing(s: System)
    requires Inv(s, OnlyAcceptable) && SafeToRestart(s, OnlyAcceptable)
    ensures RestartLosesNothing(s)
  {
    RestartKeeps(s, OnlyAcceptable);
    hide Inv, Legal, Safe, Exec, Apply, WasAccepted;
    var t := Apply(s, Restart);
    forall more | Safe(t, more, OnlyAcceptable) && Legal(t, more)
      ensures forall x :: x in Exec(t, more).confirmed ==> WasAccepted(Exec(t, more), x)
    {
      InvHolds(t, more, OnlyAcceptable);
      ConfirmedAreAccepted(Exec(t, more), OnlyAcceptable);
    }
  }

  lemma UnsafeRestartLoses(s: System)
    requires Inv(s, OnlyAcceptable) && !SafeToRestart(s, OnlyAcceptable) && s.buf.maxBytes >= BYTES_PER_SAMPLE
    ensures !RestartLosesNothing(s)
  {
    hide Inv, Legal, Safe, Exec, Apply, WasAccepted, Acceptable;
    var r :| r in s.requests && Counts(r, OnlyAcceptable) && r.sequence >= Resumed(s);
    var call: nat :| call < |s.requests| && s.requests[call] == r;
    var more, x := UnsafeRestartLosesAnItem(s, call);
    NoRestartIsSafe(Apply(s, Restart), more, OnlyAcceptable);
  }

  // ----- calls end once; a forgotten sequence is taken up again -----

  /** The call was made, and the agent no longer waits for its reply. */
  predicate Ended(s: System, call: nat) { call < |s.requests| && call !in s.waiting }

  lemma {:induction false} EndedStaysEnded(s: System, steps: seq<Step>, call: nat)
    requires Legal(s, steps) && Ended(s, call)
    ensures Ended(Exec(s, steps), call)
    decreases steps
  {
    hide Acceptable, Outgoing, TakenBy, Kept, Excess, TotalBytes;
    if steps != [] {
      EndedStaysEnded(Apply(s, steps[0]), steps[1..], call);
    }
  }

  /**
   * A call that failed, was confirmed, or was cut off by a restart is never
   * confirmed afterwards, whatever replies still arrive for it.
   */
  lemma CallEndsOnce(s: System, step: Step, call: nat, more: seq<Step>)
    requires Enabled(s, step) && call < |s.requests| && (step == Fail(call) || step == Confirm(call) || step == Restart)
    requires Legal(Apply(s, step), more)
    ensures !Enabled(Exec(Apply(s, step), more), Confirm(call))
  {
    EndsTheCall(s, step, call);
    hide Legal, Exec, Apply;
    EndedStaysEnded(Apply(s, step), more, call);
  }

  lemma EndsTheCall(s: System, step: Step, call: nat)
    requires Enabled(s, step) && call < |s.requests| && (step == Fail(call) || step == Confirm(call) || step == Restart)
    ensures Ended(Apply(s, step), call)
  {
    hide Acceptable, Outgoing, TakenBy, Kept, Excess, TotalBytes;
  }

  /** Once the gateway has forgotten a sequence, an item that reuses it is accepted and not lost. */
  lemma ForgettingAvoidsTheLoss(s: System, call: nat)
    requires Enabled(s, Arrive(call)) && call in s.waiting
    requires s.buf.items != [] && s.requests[call].items != [] && s.requests[call].items[0] == s.buf.items[0]
    requires s.buf.items[0].sequence == s.requests[call].sequence
    ensures var x, t := s.buf.items[0], Apply(s, Forget(s.requests[call].sequence));
            var steps := [Arrive(call), Confirm(call)];
            Legal(t, steps) && x in Exec(t, steps).confirmed && WasAccepted(Exec(t, steps), x)
  {
    hide Acceptable, Legal, Exec, WasAccepted, Outgoing, TakenBy, Kept, Excess, TotalBytes;
    ReplyLosesIff(Apply(s, Forget(s.requests[call].sequence)), call);
  }

  /** How many jobs carry a sequence. */
  function JobsUnder(jobs: seq<Job>, sequence: int): nat {
    if jobs == [] then 0
    else JobsUnder(jobs[..|jobs| - 1], sequence) + if jobs[|jobs| - 1].sequence == sequence then 1 else 0
  }

  function Forgets(steps: seq<Step>, sequence: int): nat
    decreases steps
  {
    if steps == [] then 0 else (if steps[0] == Forget(sequence) then 1 else 0) + Forgets(steps[1..], sequence)
  }

  /** The jobs under a sequence, and room for one more unless it is remembered. */
  function JobRoom(s: System, sequence: int): nat {
    JobsUnder(s.jobs, sequence) + if sequence in s.remembered then 0 else 1
  }

  lemma StepKeepsJobRoom(s: System, step: Step, sequence: int)
    requires Enabled(s, step)
    ensures JobRoom(Apply(s, step), sequence) <= JobRoom(s, sequence) + if step == Forget(sequence) then 1 else 0
  {
    hide Acceptable, Outgoing, TakenBy, Kept, Excess, TotalBytes;
    if step.Arrive? {
      var r := s.requests[step.call];
      assert (s.jobs + [r])[..|s.jobs|] == s.jobs;
    }
  }

  lemma {:induction false} JobRoomGrowsByForgetting(s: System, steps: seq<Step>, sequence: int)
    requires Legal(s, steps)
    ensures JobRoom(Exec(s, steps), sequence) <= JobRoom(s, sequence) + Forgets(steps, sequence)
    decreases steps
  {
    hide Apply, Enabled, JobRoom;
    if steps != [] {
      StepKeepsJobRoom(s, steps[0], sequence);
      JobRoomGrowsByForgetting(Apply(s, steps[0]), steps[1..], sequence);
    }
  }

  /** However often a request is repeated, the gateway makes at most one job of its sequence each time it has forgotten it. */
  lemma RepeatsMakeNoJobs(maxBytes: int, steps: seq<Step>, sequence: int)
    requires Legal(Initial(maxBytes), steps)
    ensures JobsUnder(Exec(Initial(maxBytes), steps).jobs, sequence) <= 1 + Forgets(steps, sequence)
  {
    hide Legal, Exec;
    JobRoomGrowsByForgetting(Initial(maxBytes), steps, sequence);
  }
}

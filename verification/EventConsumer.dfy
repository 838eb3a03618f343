/**
 * The domain-event consumer: any number of workers, redeliveries, republished
 * outbox rows, and errors or crashes between any two database statements.  The
 * insert of the event's id is the gate; everything behind it runs at most once.
 */
module EventConsumer {
  import opened Prelude

  datatype Envelope = Envelope(id: int, tenant: int, fingerprint: Option<int>)

  datatype Incident = Incident(tenant: int, fingerprint: int, open: bool)

  /** Where one worker is with the job it holds: before the gate, or behind it. */
  datatype Phase =
    | Received(e: Envelope)
    | Stored(e: Envelope)
    | Found(e: Envelope, incident: int)
    | Linked(e: Envelope, incident: int)
    | Creating(e: Envelope)
    | Opened(e: Envelope, incident: int)
    | Notifying(e: Envelope, incident: int, rest: seq<int>)

  /**
   * The tables, those that cite events grouped by event id, in insertion order:
   * incidents linked to it, incidents with a timeline entry for it, channels it
   * was delivered to.  `lost` collects the events whose worker gave up behind
   * the gate before the timeline entry was written.
   */
  datatype System = System(
    stored: map<int, Envelope>, incidents: map<int, Incident>,
    links: map<int, seq<int>>, timeline: map<int, seq<int>>, deliveries: map<int, seq<int>>,
    workers: map<nat, Phase>, lost: set<int>)

  function Initial(): System { System(map[], map[], map[], map[], map[], map[], {}) }

  datatype Step =
    | Deliver(w: nat, e: Envelope)              // a job reaches a worker, for the first time or again
    | Insert(w: nat)                            // the gate
    | Look(w: nat, found: Option<int>)          // any open incident of the fingerprint
    | Link(w: nat, ok: bool)                    // its failure is swallowed
    | Note(w: nat)                              // timeline entry of a recurrence
    | Create(w: nat, incident: int)             // incident, link and entry in one transaction
    | ListChannels(w: nat, channels: seq<int>)
    | Dispatch(w: nat, enabled: bool)           // the next channel, unless disabled meanwhile
    | Finish(w: nat)
    | Abort(w: nat)                             // an error or a crash
    | SetStatus(incident: int, open: bool)      // an operator resolves or reopens

  predicate Behind(p: Phase) { !p.Received? }

  /** The timeline entry has been written. */
  predicate Entered(p: Phase) { p.Opened? || p.Notifying? }

  predicate OpenFor(i: Incident, e: Envelope) {
    e.fingerprint.Some? && i.open && i.tenant == e.tenant && i.fingerprint == e.fingerprint.value
  }

  function Rows(table: map<int, seq<int>>, event: int): seq<int> { if event in table then table[event] else [] }

  function Add(table: map<int, seq<int>>, event: int, x: int): map<int, seq<int>> {
    table[event := Rows(table, event) + [x]]
  }

  predicate Distinct(s: seq<int>) { forall i, j :: 0 <= i < j < |s| ==> s[i] != s[j] }

  predicate Enabled(s: System, step: Step) {
    match step
    case Deliver(w, _) => w !in s.workers
    case Insert(w) => w in s.workers && s.workers[w].Received?
    case Look(w, found) =>
      && w in s.workers && s.workers[w].Stored? && s.workers[w].e.fingerprint.Some?
      && (if found.Some? then found.value in s.incidents && OpenFor(s.incidents[found.value], s.workers[w].e)
          else forall i :: i in s.incidents ==> !OpenFor(s.incidents[i], s.workers[w].e))
    case Link(w, _) => w in s.workers && s.workers[w].Found?
    case Note(w) => w in s.workers && s.workers[w].Linked?
    case Create(w, i) => w in s.workers && s.workers[w].Creating? && s.workers[w].e.fingerprint.Some? && i !in s.incidents
    case ListChannels(w, channels) => w in s.workers && s.workers[w].Opened? && Distinct(channels)
    case Dispatch(w, _) => w in s.workers && s.workers[w].Notifying? && s.workers[w].rest != []
    case Finish(w) => w in s.workers && (
      (s.workers[w].Stored? && s.workers[w].e.fingerprint.None?) || (s.workers[w].Notifying? && s.workers[w].rest == []))
    case Abort(w) => w in s.workers
    case SetStatus(i, _) => i in s.incidents
  }

  function Apply(s: System, step: Step): System
    requires Enabled(s, step)
  {
    match step
    case Deliver(w, e) => s.(workers := s.workers[w := Received(e)])
    case Insert(w) =>
      var e := s.workers[w].e;
      if e.id in s.stored then s.(workers := s.workers - {w})
      else s.(stored := s.stored[e.id := e], workers := s.workers[w := Stored(e)])
    case Look(w, found) =>
      var e := s.workers[w].e;
      s.(workers := s.workers[w := if found.Some? then Found(e, found.value) else Creating(e)])
    case Link(w, ok) =>
      var e, i := s.workers[w].e, s.workers[w].incident;
      var t := s.(workers := s.workers[w := Linked(e, i)]);
      if ok then t.(links := Add(s.links, e.id, i)) else t
    case Note(w) =>
      var e, i := s.workers[w].e, s.workers[w].incident;
      s.(workers := s.workers[w := Opened(e, i)], timeline := Add(s.timeline, e.id, i))
    case Create(w, i) =>
      var e := s.workers[w].e;
      s.(incidents := s.incidents[i := Incident(e.tenant, e.fingerprint.value, true)],
         links := Add(s.links, e.id, i), timeline := Add(s.timeline, e.id, i),
         workers := s.workers[w := Opened(e, i)])
    case ListChannels(w, channels) =>
      s.(workers := s.workers[w := Notifying(s.workers[w].e, s.workers[w].incident, channels)])
    case Dispatch(w, enabled) =>
      var p := s.workers[w];
      var t := s.(workers := s.workers[w := p.(rest := p.rest[1..])]);
      if enabled then t.(deliveries := Add(s.deliveries, p.e.id, p.rest[0])) else t
    case Finish(w) => s.(workers := s.workers - {w})
    case Abort(w) =>
      var p := s.workers[w];
      var t := s.(workers := s.workers - {w});
      if Behind(p) && !Entered(p) && p.e.fingerprint.Some? then t.(lost := s.lost + {p.e.id}) else t
    case SetStatus(i, open) => s.(incidents := s.incidents[i := s.incidents[i].(open := open)])
  }

  predicate Legal(s: System, steps: seq<Step>)
    decreases steps
  {
    steps == [] || (Enabled(s, steps[0]) && Legal(Apply(s, steps[0]), steps[1..]))
  }

  function Exec(s: System, steps: seq<Step>): System
    requires Legal(s, steps)
    decreases steps
  {
    if steps == [] then s else Exec(Apply(s, steps[0]), steps[1..])
  }

  // ----- the invariant -----

  /** Some worker is behind the gate with this event. */
  ghost predicate InProgress(s: System, event: int) {
    exists w :: w in s.workers && Behind(s.workers[w]) && s.workers[w].e.id == event
  }

  /** What the tables hold about the event of a worker in phase `p`. */
  predicate Fits(s: System, p: Phase) {
    var e := p.e;
    var links, entries, sent := Rows(s.links, e.id), Rows(s.timeline, e.id), Rows(s.deliveries, e.id);
    && (!p.Stored? ==> e.fingerprint.Some?)
    && match p
       case Received(_) => false
       case Stored(_) => links == [] && entries == [] && sent == []
       case Found(_, _) => links == [] && entries == [] && sent == []
       case Creating(_) => links == [] && entries == [] && sent == []
       case Linked(_, i) => (links == [] || links == [i]) && entries == [] && sent == []
       case Opened(_, i) => (links == [] || links == [i]) && entries == [i] && sent == []
       case Notifying(_, i, rest) => (links == [] || links == [i]) && entries == [i] && Distinct(sent + rest)
  }

  /** What they hold about an event nobody is working on. */
  predicate Rests(s: System, event: int) {
    var links, entries, sent := Rows(s.links, event), Rows(s.timeline, event), Rows(s.deliveries, event);
    if event !in s.stored then links == [] && entries == [] && sent == [] && event !in s.lost
    else if s.stored[event].fingerprint.None? then links == [] && entries == [] && sent == [] && event !in s.lost
    else if event in s.lost then |links| <= 1 && entries == [] && sent == []
    else |entries| == 1 && (links == [] || links == entries) && Distinct(sent)
  }

  /** A worker behind the gate is the only one there with its event, and the tables agree with its phase. */
  ghost predicate WorkerInv(s: System, w: nat)
    requires w in s.workers
  {
    var p := s.workers[w];
    Behind(p) ==>
      && p.e.id in s.stored && s.stored[p.e.id] == p.e && p.e.id !in s.lost && Fits(s, p)
      && forall v :: v in s.workers && Behind(s.workers[v]) && s.workers[v].e.id == p.e.id ==> v == w
  }

  ghost predicate Inv(s: System) {
    && (forall w :: w in s.workers ==> WorkerInv(s, w))
    && (forall event :: !InProgress(s, event) ==> Rests(s, event))
  }

  /** What a step leaves alone when it concerns one worker and its event. */
  ghost predicate SameElsewhere(s: System, t: System, w: nat, event: int) {
    && t.stored == s.stored && t.workers - {w} == s.workers - {w}
    && forall x :: x != event ==>
         && Rows(t.links, x) == Rows(s.links, x) && Rows(t.timeline, x) == Rows(s.timeline, x)
         && Rows(t.deliveries, x) == Rows(s.deliveries, x) && (x in t.lost <==> x in s.lost)
  }

  /** The worker has moved to a phase that fits, or has left the event at rest. */
  predicate EndsWell(s: System, t: System, w: nat)
    requires w in s.workers
  {
    var e := s.workers[w].e;
    if w in t.workers then Behind(t.workers[w]) && t.workers[w].e == e && e.id !in t.lost && Fits(t, t.workers[w])
    else Rests(t, e.id)
  }

  lemma OtherWorkers(s: System, t: System, w: nat, v: nat)
    requires t.workers - {w} == s.workers - {w} && v != w
    ensures v in t.workers <==> v in s.workers
    ensures v in t.workers ==> t.workers[v] == s.workers[v]
  {
    assert v in t.workers <==> v in t.workers - {w};
    assert v in s.workers <==> v in s.workers - {w};
    assert v in t.workers ==> (t.workers - {w})[v] == t.workers[v];
    assert v in s.workers ==> (s.workers - {w})[v] == s.workers[v];
  }

  lemma WorkerStepKeeps(s: System, t: System, w: nat)
    requires Inv(s) && w in s.workers && Behind(s.workers[w])
    requires SameElsewhere(s, t, w, s.workers[w].e.id) && EndsWell(s, t, w)
    ensures Inv(t)
  {
    hide Rests, Fits;
    var e := s.workers[w].e;
    forall v ensures v != w ==> (v in t.workers <==> v in s.workers) && (v in t.workers ==> t.workers[v] == s.workers[v]) {
      if v != w { OtherWorkers(s, t, w, v); }
    }
    forall v | v in t.workers ensures WorkerInv(t, v) {
      assert WorkerInv(s, w) && (v in s.workers ==> WorkerInv(s, v));
      if v != w && Behind(s.workers[v]) { FitsElsewhere(s, t, w, e.id, s.workers[v]); }
    }
    forall event | !InProgress(t, event) ensures Rests(t, event) {
      if event != e.id {
        assert !InProgress(s, event);
        RestsElsewhere(s, t, w, e.id, event);
      }
    }
  }

  lemma FitsElsewhere(s: System, t: System, w: nat, event: int, p: Phase)
    requires SameElsewhere(s, t, w, event) && p.e.id != event
    ensures Fits(t, p) == Fits(s, p)
  {
  }

  lemma RestsElsewhere(s: System, t: System, w: nat, event: int, other: int)
    requires SameElsewhere(s, t, w, event) && other != event
    ensures Rests(t, other) == Rests(s, other)
  {
  }

  lemma DistinctRest(s: seq<int>, x: int, rest: seq<int>)
    requires Distinct(s + ([x] + rest))
    ensures Distinct((s + [x]) + rest) && Distinct(s + rest)
  {
    var all := s + ([x] + rest);
    assert (s + [x]) + rest == all;
    forall i, j | 0 <= i < j < |s + rest| ensures (s + rest)[i] != (s + rest)[j] {
      assert (s + rest)[i] == all[if i < |s| then i else i + 1] && (s + rest)[j] == all[if j < |s| then j else j + 1];
    }
  }

  lemma AddChangesOneEvent(table: map<int, seq<int>>, event: int, x: int)
    ensures Rows(Add(table, event, x), event) == Rows(table, event) + [x]
    ensures forall other :: other != event ==> Rows(Add(table, event, x), other) == Rows(table, other)
  {
  }

  /** The step concerns one worker that is behind the gate. */
  predicate IsWorkerStep(step: Step) {
    step.Look? || step.Link? || step.Note? || step.Create? || step.ListChannels? || step.Dispatch? || step.Finish?
  }

  /** What a step owes: it touches its worker and event only, and leaves them in order. */
  ghost predicate StepIsLocal(s: System, step: Step)
    requires Enabled(s, step) && IsWorkerStep(step)
  {
    var t := Apply(s, step);
    Behind(s.workers[step.w]) && SameElsewhere(s, t, step.w, s.workers[step.w].e.id) && EndsWell(s, t, step.w)
  }

  lemma LinkIsLocal(s: System, step: Step)
    requires Inv(s) && Enabled(s, step) && step.Link?
    ensures StepIsLocal(s, step)
  {
    assert WorkerInv(s, step.w);
    hide Inv, WorkerInv, Rests, Add, Rows, Distinct, OpenFor;
    var p := s.workers[step.w];
    AddChangesOneEvent(s.links, p.e.id, p.incident);
    assert [] + [p.incident] == [p.incident];
  }

  lemma NoteIsLocal(s: System, step: Step)
    requires Inv(s) && Enabled(s, step) && step.Note?
    ensures StepIsLocal(s, step)
  {
    assert WorkerInv(s, step.w);
    hide Inv, WorkerInv, Rests, Add, Rows, Distinct, OpenFor;
    var p := s.workers[step.w];
    AddChangesOneEvent(s.timeline, p.e.id, p.incident);
    assert [] + [p.incident] == [p.incident];
  }

  lemma CreateIsLocal(s: System, step: Step)
    requires Inv(s) && Enabled(s, step) && step.Create?
    ensures StepIsLocal(s, step)
  {
    assert WorkerInv(s, step.w);
    hide Inv, WorkerInv, Rests, Add, Rows, Distinct, OpenFor;
    var p := s.workers[step.w];
    AddChangesOneEvent(s.links, p.e.id, step.incident);
    AddChangesOneEvent(s.timeline, p.e.id, step.incident);
    assert [] + [step.incident] == [step.incident];
  }

  lemma DispatchIsLocal(s: System, step: Step)
    requires Inv(s) && Enabled(s, step) && step.Dispatch?
    ensures StepIsLocal(s, step)
  {
    assert WorkerInv(s, step.w);
    hide Inv, WorkerInv, Rests, Add, Rows, Distinct;
    var p := s.workers[step.w];
    assert p.rest == [p.rest[0]] + p.rest[1..];
    DistinctRest(Rows(s.deliveries, p.e.id), p.rest[0], p.rest[1..]);
    AddChangesOneEvent(s.deliveries, p.e.id, p.rest[0]);
  }

  lemma MovingIsLocal(s: System, step: Step)
    requires Inv(s) && Enabled(s, step) && (step.Look? || step.ListChannels? || step.Finish?)
    ensures StepIsLocal(s, step)
  {
    assert WorkerInv(s, step.w);
    hide Inv, WorkerInv, Rows, Distinct;
    var p := s.workers[step.w];
    assert Rows(s.deliveries, p.e.id) + [] == Rows(s.deliveries, p.e.id);
    assert step.ListChannels? ==> [] + step.channels == step.channels;
  }

  lemma AbortEndsWell(s: System, w: nat)
    requires Inv(s) && Enabled(s, Abort(w)) && Behind(s.workers[w])
    ensures SameElsewhere(s, Apply(s, Abort(w)), w, s.workers[w].e.id) && EndsWell(s, Apply(s, Abort(w)), w)
  {
    assert WorkerInv(s, w);
    var p := s.workers[w];
    if p.Notifying? {
      var sent := Rows(s.deliveries, p.e.id);
      assert forall i :: 0 <= i < |sent| ==> (sent + p.rest)[i] == sent[i];
    }
  }

  /** The tables cite the same events, and the workers behind the gate are the same. */
  predicate SameBehind(s: System, t: System) {
    && t.stored == s.stored && t.links == s.links && t.timeline == s.timeline && t.deliveries == s.deliveries && t.lost == s.lost
    && (forall v :: v in t.workers && Behind(t.workers[v]) ==> v in s.workers && t.workers[v] == s.workers[v])
    && (forall v :: v in s.workers && Behind(s.workers[v]) ==> v in t.workers && t.workers[v] == s.workers[v])
  }

  /** Steps in front of the gate, and an operator's. */
  predicate IsFrontStep(s: System, step: Step)
    requires Enabled(s, step)
  {
    || step.Deliver? || step.SetStatus? || (step.Insert? && s.workers[step.w].e.id in s.stored)
    || (step.Abort? && !Behind(s.workers[step.w]))
  }

  lemma FrontStepStaysInFront(s: System, step: Step)
    requires Enabled(s, step) && IsFrontStep(s, step)
    ensures SameBehind(s, Apply(s, step))
  {
    hide Add, Rows, Distinct, OpenFor;
  }

  lemma SameBehindKeeps(s: System, t: System)
    requires Inv(s) && SameBehind(s, t)
    ensures Inv(t)
  {
    forall v | v in t.workers ensures WorkerInv(t, v) {
      assert Behind(t.workers[v]) ==> WorkerInv(s, v);
    }
    forall event | !InProgress(t, event) ensures Rests(t, event) {
      assert !InProgress(s, event);
    }
  }

  /** Passing the gate: nothing in the tables cites the event yet. */
  lemma InsertKeeps(s: System, w: nat)
    requires Inv(s) && Enabled(s, Insert(w)) && s.workers[w].e.id !in s.stored
    ensures Inv(Apply(s, Insert(w)))
  {
    var t, e := Apply(s, Insert(w)), s.workers[w].e;
    forall v | v in s.workers && Behind(s.workers[v]) ensures s.workers[v].e.id != e.id {
      assert WorkerInv(s, v);
    }
    assert !InProgress(s, e.id) && Rests(s, e.id);
    forall v | v in t.workers ensures WorkerInv(t, v) {
      assert v in s.workers && WorkerInv(s, v);
    }
    assert forall v :: v in s.workers && Behind(s.workers[v]) ==> v in t.workers && t.workers[v] == s.workers[v];
    assert forall x :: InProgress(s, x) ==> InProgress(t, x);
    assert Behind(t.workers[w]) && InProgress(t, e.id);
    hide Fits;
    forall event | !InProgress(t, event) ensures Rests(t, event) {
      assert event != e.id && Rests(s, event);
    }
  }

  /** The step is one of a worker behind the gate, its giving up included. */
  predicate IsBehindStep(s: System, step: Step)
    requires Enabled(s, step)
  {
    IsWorkerStep(step) || (step.Abort? && Behind(s.workers[step.w]))
  }

  lemma BehindStepIsLocal(s: System, step: Step)
    requires Inv(s) && Enabled(s, step) && IsBehindStep(s, step)
    ensures Behind(s.workers[step.w])
    ensures SameElsewhere(s, Apply(s, step), step.w, s.workers[step.w].e.id) && EndsWell(s, Apply(s, step), step.w)
  {
    hide Inv, Apply, SameElsewhere, EndsWell;
    if step.Abort? {
      AbortEndsWell(s, step.w);
    } else if step.Dispatch? {
      DispatchIsLocal(s, step);
    } else if step.Link? {
      LinkIsLocal(s, step);
    } else if step.Note? {
      NoteIsLocal(s, step);
    } else if step.Create? {
      CreateIsLocal(s, step);
    } else {
      MovingIsLocal(s, step);
    }
  }

  lemma StepKeeps(s: System, step: Step)
    requires Inv(s) && Enabled(s, step)
    ensures Inv(Apply(s, step))
  {
    hide Inv, Apply, SameElsewhere, EndsWell;
    if IsBehindStep(s, step) {
      BehindStepIsLocal(s, step);
      WorkerStepKeeps(s, Apply(s, step), step.w);
    } else if step.Insert? && s.workers[step.w].e.id !in s.stored {
      InsertKeeps(s, step.w);
    } else {
      FrontStepStaysInFront(s, step);
      SameBehindKeeps(s, Apply(s, step));
    }
  }

  lemma {:induction false} InvHolds(s: System, steps: seq<Step>)
    requires Inv(s) && Legal(s, steps)
    ensures Inv(Exec(s, steps))
    decreases steps
  {
    hide Inv, Apply, Enabled;
    if steps != [] {
      StepKeeps(s, steps[0]);
      InvHolds(Apply(s, steps[0]), steps[1..]);
    }
  }

  // ----- the guarantees -----

  /** Any event has at most one incident link, one timeline entry, and one delivery on each channel. */
  predicate AtMostOnce(s: System, event: int) {
    |Rows(s.links, event)| <= 1 && |Rows(s.timeline, event)| <= 1 && Distinct(Rows(s.deliveries, event))
  }

  lemma EffectsHappenAtMostOnce(steps: seq<Step>, event: int)
    requires Legal(Initial(), steps)
    ensures AtMostOnce(Exec(Initial(), steps), event)
  {
    hide Exec, Legal, Apply, Enabled;
    InitialInv();
    InvHolds(Initial(), steps);
    InvGivesAtMostOnce(Exec(Initial(), steps), event);
  }

  lemma InitialInv()
    ensures Inv(Initial())
  {
  }

  lemma InvGivesAtMostOnce(s: System, event: int)
    requires Inv(s)
    ensures AtMostOnce(s, event)
  {
    if InProgress(s, event) {
      var w :| w in s.workers && Behind(s.workers[w]) && s.workers[w].e.id == event;
      assert WorkerInv(s, w);
      var p, sent := s.workers[w], Rows(s.deliveries, event);
      if p.Notifying? {
        assert forall i :: 0 <= i < |sent| ==> (sent + p.rest)[i] == sent[i];
      }
    } else {
      assert Rests(s, event);
    }
  }

  /**
   * Once nobody is working on it, a stored event with a fingerprint has exactly
   * one timeline entry if and only if no worker gave up on it between the gate
   * and that entry.
   */
  lemma EntryIffNotLost(steps: seq<Step>, event: int)
    requires Legal(Initial(), steps)
    requires var s := Exec(Initial(), steps);
             event in s.stored && s.stored[event].fingerprint.Some? && !InProgress(s, event)
    ensures var s := Exec(Initial(), steps); |Rows(s.timeline, event)| == 1 <==> event !in s.lost
  {
    hide Exec, Legal, Apply, Enabled, InProgress;
    InitialInv();
    InvHolds(Initial(), steps);
    assert Rests(Exec(Initial(), steps), event);
  }

  /** A run with no abort behind the gate loses nothing. */
  lemma {:induction false} OnlyAbortsLose(s: System, steps: seq<Step>)
    requires Legal(s, steps) && forall i :: 0 <= i < |steps| ==> !steps[i].Abort?
    ensures Exec(s, steps).lost == s.lost
    decreases steps
  {
    if steps != [] {
      OnlyAbortsLose(Apply(s, steps[0]), steps[1..]);
    }
  }

  lemma OneStepThen(s: System, step: Step, rest: seq<Step>)
    requires Enabled(s, step) && Legal(Apply(s, step), rest)
    ensures Legal(s, [step] + rest) && Exec(s, [step] + rest) == Exec(Apply(s, step), rest)
  {
    hide Enabled, Apply;
    assert ([step] + rest)[0] == step && ([step] + rest)[1..] == rest;
  }

  /** Any new event with a fingerprint can be lost: its worker takes it past the gate and gives up. */
  lemma AnyNewEventCanBeLost(s: System, w: nat, e: Envelope)
    requires w !in s.workers && e.id !in s.stored && e.fingerprint.Some?
    ensures var steps := [Deliver(w, e)] + ([Insert(w)] + ([Abort(w)] + []));
            Legal(s, steps) && e.id in Exec(s, steps).lost
  {
    var a := Apply(s, Deliver(w, e));
    var b := Apply(a, Insert(w));
    OneStepThen(b, Abort(w), []);
    OneStepThen(a, Insert(w), [Abort(w)] + []);
    OneStepThen(s, Deliver(w, e), [Insert(w)] + ([Abort(w)] + []));
  }

  /**
   * Redelivery never repairs a lost event: whatever follows, its id stays in the
   * table, every later delivery stops at the gate, and it never gets an entry.
   */
  lemma LostIsForever(steps: seq<Step>, more: seq<Step>, event: int)
    requires Legal(Initial(), steps) && event in Exec(Initial(), steps).lost
    requires Legal(Exec(Initial(), steps), more)
    ensures var t := Exec(Exec(Initial(), steps), more);
            event in t.lost && !InProgress(t, event) && Rows(t.timeline, event) == [] && Rows(t.deliveries, event) == []
  {
    hide Exec, Legal, Apply, Enabled;
    InitialInv();
    InvHolds(Initial(), steps);
    var s := Exec(Initial(), steps);
    InvHolds(s, more);
    LostOnlyGrows(s, more);
    InvRestsLost(Exec(s, more), event);
  }

  lemma InvRestsLost(s: System, event: int)
    requires Inv(s) && event in s.lost
    ensures !InProgress(s, event) && Rows(s.timeline, event) == [] && Rows(s.deliveries, event) == []
  {
    hide Fits;
    assert forall w :: w in s.workers ==> WorkerInv(s, w);
    assert !InProgress(s, event) && Rests(s, event);
  }

  lemma {:induction false} LostOnlyGrows(s: System, steps: seq<Step>)
    requires Legal(s, steps)
    ensures s.lost <= Exec(s, steps).lost
    decreases steps
  {
    if steps != [] {
      LostOnlyGrows(Apply(s, steps[0]), steps[1..]);
    }
  }

  // ----- an event nobody works on any more -----

  /** The event is stored and nobody is working on it. */
  ghost predicate AtRest(s: System, event: int) { event in s.stored && !InProgress(s, event) }

  predicate SameRowsFor(s: System, t: System, event: int) {
    && Rows(t.links, event) == Rows(s.links, event) && Rows(t.timeline, event) == Rows(s.timeline, event)
    && Rows(t.deliveries, event) == Rows(s.deliveries, event)
  }

  lemma BehindStepLeavesRest(s: System, t: System, w: nat, event: int)
    requires AtRest(s, event) && w in s.workers && Behind(s.workers[w])
    requires SameElsewhere(s, t, w, s.workers[w].e.id) && EndsWell(s, t, w)
    ensures AtRest(t, event) && SameRowsFor(s, t, event)
  {
    hide Fits, Rests, Rows;
    assert s.workers[w].e.id != event;
    forall v | v in t.workers && Behind(t.workers[v]) ensures t.workers[v].e.id != event {
      if v != w { OtherWorkers(s, t, w, v); }
    }
  }

  lemma InsertLeavesRest(s: System, w: nat, event: int)
    requires AtRest(s, event) && Enabled(s, Insert(w)) && s.workers[w].e.id !in s.stored
    ensures AtRest(Apply(s, Insert(w)), event) && SameRowsFor(s, Apply(s, Insert(w)), event)
  {
    hide Rows;
    var t := Apply(s, Insert(w));
    forall v | v in t.workers && Behind(t.workers[v]) ensures t.workers[v].e.id != event {
      assert v != w ==> t.workers[v] == s.workers[v];
    }
  }

  lemma StepLeavesRest(s: System, step: Step, event: int)
    requires Inv(s) && Enabled(s, step) && AtRest(s, event)
    ensures AtRest(Apply(s, step), event) && SameRowsFor(s, Apply(s, step), event)
  {
    hide Inv, Apply, SameElsewhere, EndsWell, Rows;
    if IsBehindStep(s, step) {
      BehindStepIsLocal(s, step);
      BehindStepLeavesRest(s, Apply(s, step), step.w, event);
    } else if step.Insert? && s.workers[step.w].e.id !in s.stored {
      InsertLeavesRest(s, step.w, event);
    } else {
      FrontStepStaysInFront(s, step);
    }
  }

  /** Nothing is ever recorded again for an event at rest, however often it is delivered. */
  lemma {:induction false} RestIsFinal(s: System, steps: seq<Step>, event: int)
    requires Inv(s) && Legal(s, steps) && AtRest(s, event)
    ensures AtRest(Exec(s, steps), event) && SameRowsFor(s, Exec(s, steps), event)
    decreases steps
  {
    hide Inv, Apply, Enabled, AtRest, Rows;
    if steps != [] {
      StepKeeps(s, steps[0]);
      StepLeavesRest(s, steps[0], event);
      RestIsFinal(Apply(s, steps[0]), steps[1..], event);
    }
  }

  /**
   * A fan-out that gives up never delivers the channels it had left: whatever
   * follows, the event keeps exactly the deliveries it had.
   */
  lemma AbortedChannelsAreNeverDelivered(steps: seq<Step>, w: nat, more: seq<Step>, channel: int)
    requires Legal(Initial(), steps)
    requires var s := Exec(Initial(), steps); w in s.workers && s.workers[w].Notifying? && Legal(Apply(s, Abort(w)), more)
    ensures var s := Exec(Initial(), steps);
            var p, t := s.workers[w], Exec(Apply(s, Abort(w)), more);
            && !InProgress(t, p.e.id) && Rows(t.deliveries, p.e.id) == Rows(s.deliveries, p.e.id)
            && (channel in p.rest ==> channel !in Rows(t.deliveries, p.e.id))
  {
    hide Exec, Legal, Apply, Inv, Rows;
    InitialInv();
    InvHolds(Initial(), steps);
    var s := Exec(Initial(), steps);
    StepKeeps(s, Abort(w));
    AbortBringsRest(s, w, channel);
    RestIsFinal(Apply(s, Abort(w)), more, s.workers[w].e.id);
  }

  lemma AbortBringsRest(s: System, w: nat, channel: int)
    requires Inv(s) && w in s.workers && s.workers[w].Notifying?
    ensures var p, t := s.workers[w], Apply(s, Abort(w));
            && AtRest(t, p.e.id) && Rows(t.deliveries, p.e.id) == Rows(s.deliveries, p.e.id)
            && (channel in p.rest ==> channel !in Rows(s.deliveries, p.e.id))
  {
    hide Rows, Rests;
    assert WorkerInv(s, w);
    var p, t := s.workers[w], Apply(s, Abort(w));
    forall v | v in t.workers && Behind(t.workers[v]) ensures t.workers[v].e.id != p.e.id {
      assert v in s.workers && v != w;
    }
    var sent := Rows(s.deliveries, p.e.id);
    DistinctParts(sent, p.rest, channel);
  }

  lemma DistinctParts(a: seq<int>, b: seq<int>, x: int)
    requires Distinct(a + b)
    ensures x in b ==> x !in a
  {
    forall i, j | 0 <= i < |a| && 0 <= j < |b| ensures a[i] != b[j] {
      assert (a + b)[i] == a[i] && (a + b)[|a| + j] == b[j];
    }
  }
}

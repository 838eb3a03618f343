/**
 * Delivery to channels: a worker that comes to its end has delivered the event on
 * every channel it listed, except those it found disabled when their turn came.
 */
module EventDelivery {
  import opened EventConsumer

  /**
   * A run of the consumer with notes beside it: for each event the channels that
   * were listed and those then found disabled, and the events whose worker came
   * to its end.
   */
  datatype Watched = Watched(s: System, listed: map<int, seq<int>>, skipped: map<int, seq<int>>, finished: set<int>)

  function Start(): Watched { Watched(Initial(), map[], map[], {}) }

  function Watch(a: Watched, step: Step): Watched
    requires Enabled(a.s, step)
  {
    var b := a.(s := Apply(a.s, step));
    match step
    case ListChannels(w, channels) => b.(listed := a.listed[a.s.workers[w].e.id := channels])
    case Dispatch(w, enabled) =>
      var p := a.s.workers[w];
      if enabled then b else b.(skipped := Add(a.skipped, p.e.id, p.rest[0]))
    case Finish(w) => b.(finished := a.finished + {a.s.workers[w].e.id})
    case _ => b
  }

  function WatchAll(a: Watched, steps: seq<Step>): Watched
    requires Legal(a.s, steps)
    decreases steps
  {
    if steps == [] then a else WatchAll(Watch(a, steps[0]), steps[1..])
  }

  lemma {:induction false} WatchingChangesNothing(a: Watched, steps: seq<Step>)
    requires Legal(a.s, steps)
    ensures WatchAll(a, steps).s == Exec(a.s, steps)
    decreases steps
  {
    hide Apply, Enabled;
    if steps != [] {
      WatchingChangesNothing(Watch(a, steps[0]), steps[1..]);
    }
  }

  // ----- the invariant -----

  /** Every channel listed for the event has its delivery, was found disabled, or is still to come; and no other has. */
  ghost predicate Covered(a: Watched, event: int, rest: seq<int>) {
    forall c :: c in Rows(a.listed, event) <==>
      c in Rows(a.s.deliveries, event) || c in Rows(a.skipped, event) || c in rest
  }

  /** Nothing has been noted for the event yet. */
  predicate Untouched(a: Watched, event: int) {
    Rows(a.listed, event) == [] && Rows(a.skipped, event) == [] && Rows(a.s.deliveries, event) == [] && event !in a.finished
  }

  /** What the notes say about the event of a worker in phase `p`. */
  ghost predicate NotesFit(a: Watched, p: Phase) {
    if p.Notifying? then Covered(a, p.e.id, p.rest) && p.e.id !in a.finished else Untouched(a, p.e.id)
  }

  ghost predicate DeliveryInv(a: Watched) {
    && Inv(a.s)
    && (forall w :: w in a.s.workers && Behind(a.s.workers[w]) ==> NotesFit(a, a.s.workers[w]))
    && (forall event :: event !in a.s.stored ==> Untouched(a, event))
    && (forall event :: event in a.finished ==> Covered(a, event, []))
  }

  /** A step that concerns one worker and its event leaves other workers, and what is noted of other events, alone. */
  ghost predicate NotesSameElsewhere(a: Watched, b: Watched, w: nat, event: int) {
    && b.s.workers - {w} == a.s.workers - {w} && b.s.stored == a.s.stored
    && forall x :: x != event ==>
         && Rows(b.listed, x) == Rows(a.listed, x) && Rows(b.skipped, x) == Rows(a.skipped, x)
         && Rows(b.s.deliveries, x) == Rows(a.s.deliveries, x) && (x in b.finished <==> x in a.finished)
  }

  lemma NotesFitElsewhere(a: Watched, b: Watched, w: nat, event: int)
    requires NotesSameElsewhere(a, b, w, event)
    ensures forall p: Phase :: p.e.id != event ==> NotesFit(b, p) == NotesFit(a, p)
    ensures forall x :: x != event ==> Untouched(b, x) == Untouched(a, x)
    ensures forall x :: x != event ==> Covered(b, x, []) == Covered(a, x, [])
  {
    hide Rows;
  }

  lemma WorkerStepKeepsNotes(a: Watched, b: Watched, w: nat, event: int)
    requires DeliveryInv(a) && Inv(b.s) && NotesSameElsewhere(a, b, w, event)
    requires w in a.s.workers && Behind(a.s.workers[w]) && a.s.workers[w].e.id == event
    requires w in b.s.workers ==>
               Behind(b.s.workers[w]) && b.s.workers[w].e.id == event && NotesFit(b, b.s.workers[w])
    requires event in b.finished ==> Covered(b, event, [])
    ensures DeliveryInv(b)
  {
    NotesFitElsewhere(a, b, w, event);
    assert WorkerInv(a.s, w) && event in a.s.stored;
    hide NotesFit, Untouched, Covered, Fits, Rests, Rows;
    forall v | v in b.s.workers && Behind(b.s.workers[v]) ensures NotesFit(b, b.s.workers[v]) {
      if v != w {
        OtherWorkers(a.s, b.s, w, v);
        assert a.s.workers[v].e.id != event;
      }
    }
  }

  /** Steps in front of the gate, and an operator's. */
  lemma FrontStepKeepsNotes(a: Watched, b: Watched)
    requires DeliveryInv(a) && Inv(b.s) && SameBehind(a.s, b.s) && b == a.(s := b.s)
    ensures DeliveryInv(b)
  {
    hide Inv, Rows;
    assert forall event :: Untouched(b, event) == Untouched(a, event);
    assert forall event, rest :: Covered(b, event, rest) == Covered(a, event, rest);
    forall v | v in b.s.workers && Behind(b.s.workers[v]) ensures NotesFit(b, b.s.workers[v]) {
      assert NotesFit(a, a.s.workers[v]);
    }
  }

  lemma InsertKeepsNotes(a: Watched, w: nat)
    requires DeliveryInv(a) && Enabled(a.s, Insert(w)) && a.s.workers[w].e.id !in a.s.stored
    ensures DeliveryInv(Watch(a, Insert(w)))
  {
    InsertKeeps(a.s, w);
    hide Inv, Rows;
    var b, e := Watch(a, Insert(w)), a.s.workers[w].e;
    assert Untouched(a, e.id);
    assert forall event :: Untouched(b, event) == Untouched(a, event);
    assert forall event, rest :: Covered(b, event, rest) == Covered(a, event, rest);
    forall v | v in b.s.workers && Behind(b.s.workers[v]) ensures NotesFit(b, b.s.workers[v]) {
      assert v != w ==> NotesFit(a, a.s.workers[v]);
    }
  }

  // ----- each step behind the gate -----

  lemma QuietMoveNotesNothing(a: Watched, step: Step)
    requires Enabled(a.s, step) && (step.Look? || step.Link? || step.Note? || step.Create?)
    ensures var b, w := Watch(a, step), step.w;
            && w in a.s.workers && w in b.s.workers && b.s.workers - {w} == a.s.workers - {w}
            && b.s.stored == a.s.stored && b.s.deliveries == a.s.deliveries && b == a.(s := b.s)
            && Behind(a.s.workers[w]) && !a.s.workers[w].Notifying?
            && Behind(b.s.workers[w]) && !b.s.workers[w].Notifying? && b.s.workers[w].e == a.s.workers[w].e
  {
    hide Add, Rows, OpenFor;
    match step
    case Look(_, _) =>
    case Link(_, _) =>
    case Note(_) =>
    case Create(_, _) =>
  }

  /** Moves that neither list nor dispatch, up to the timeline entry. */
  lemma QuietMoveKeepsNotes(a: Watched, step: Step)
    requires DeliveryInv(a) && Enabled(a.s, step) && (step.Look? || step.Link? || step.Note? || step.Create?)
    ensures DeliveryInv(Watch(a, step))
  {
    hide Inv, Add, Rows, OpenFor, Apply, Watch, Enabled;
    StepKeeps(a.s, step);
    QuietMoveNotesNothing(a, step);
    WatchedState(a, step);
    var b, event := Watch(a, step), a.s.workers[step.w].e.id;
    assert NotesFit(a, a.s.workers[step.w]);
    assert NotesSameElsewhere(a, b, step.w, event) && Untouched(b, event);
    hide DeliveryInv;
    WorkerStepKeepsNotes(a, b, step.w, event);
  }

  lemma WatchedState(a: Watched, step: Step)
    requires Enabled(a.s, step)
    ensures Watch(a, step).s == Apply(a.s, step)
  {
    hide Apply;
  }

  lemma ListKeepsNotes(a: Watched, step: Step)
    requires DeliveryInv(a) && Enabled(a.s, step) && step.ListChannels?
    ensures DeliveryInv(Watch(a, step))
  {
    StepKeeps(a.s, step);
    var b := Watch(a, step);
    var event := a.s.workers[step.w].e.id;
    hide Inv;
    assert NotesFit(a, a.s.workers[step.w]) && Rows(b.listed, event) == step.channels;
    assert NotesSameElsewhere(a, b, step.w, event);
    WorkerStepKeepsNotes(a, b, step.w, event);
  }

  lemma DispatchKeepsNotes(a: Watched, step: Step)
    requires DeliveryInv(a) && Enabled(a.s, step) && step.Dispatch?
    ensures DeliveryInv(Watch(a, step))
  {
    StepKeeps(a.s, step);
    var b, p := Watch(a, step), a.s.workers[step.w];
    hide Inv, Add, Rows;
    AddChangesOneEvent(a.s.deliveries, p.e.id, p.rest[0]);
    AddChangesOneEvent(a.skipped, p.e.id, p.rest[0]);
    assert NotesFit(a, p) && p.rest == [p.rest[0]] + p.rest[1..];
    assert NotesSameElsewhere(a, b, step.w, p.e.id);
    WorkerStepKeepsNotes(a, b, step.w, p.e.id);
  }

  /** The worker is gone; nothing else has changed but the note that it finished, if it did. */
  ghost predicate Left(a: Watched, b: Watched, w: nat, finished: bool) {
    && w in a.s.workers && Behind(a.s.workers[w]) && b.s.workers == a.s.workers - {w}
    && b.s.stored == a.s.stored && b.s.deliveries == a.s.deliveries && b.listed == a.listed && b.skipped == a.skipped
    && b.finished == (if finished then a.finished + {a.s.workers[w].e.id} else a.finished)
  }

  lemma FinishLeaves(a: Watched, w: nat)
    requires Enabled(a.s, Finish(w))
    ensures Left(a, Watch(a, Finish(w)), w, true)
    ensures a.s.workers[w].Stored? || (a.s.workers[w].Notifying? && a.s.workers[w].rest == [])
  {
    hide Add, Rows, OpenFor;
  }

  lemma AbortLeaves(a: Watched, w: nat)
    requires Enabled(a.s, Abort(w)) && Behind(a.s.workers[w])
    ensures Left(a, Watch(a, Abort(w)), w, false)
  {
    hide Apply, Add, Rows, OpenFor;
    AbortOnlyLeaves(a.s, w);
  }

  lemma AbortOnlyLeaves(s: System, w: nat)
    requires Enabled(s, Abort(w))
    ensures Apply(s, Abort(w)) == s.(workers := s.workers - {w}, lost := Apply(s, Abort(w)).lost)
  {
    hide Add, Rows, OpenFor, Behind, Entered;
  }

  lemma LeaveKeepsNotes(a: Watched, step: Step)
    requires DeliveryInv(a) && Enabled(a.s, step) && (step.Finish? || (step.Abort? && Behind(a.s.workers[step.w])))
    ensures DeliveryInv(Watch(a, step))
  {
    StepKeeps(a.s, step);
    if step.Finish? {
      FinishLeaves(a, step.w);
    } else {
      AbortLeaves(a, step.w);
    }
    WatchedState(a, step);
    hide Inv, Rows, Apply, Watch, Enabled;
    var b, p := Watch(a, step), a.s.workers[step.w];
    assert NotesFit(a, p);
    assert NotesSameElsewhere(a, b, step.w, p.e.id);
    WorkerStepKeepsNotes(a, b, step.w, p.e.id);
  }

  lemma WatchKeeps(a: Watched, step: Step)
    requires DeliveryInv(a) && Enabled(a.s, step)
    ensures DeliveryInv(Watch(a, step))
  {
    if step.Look? || step.Link? || step.Note? || step.Create? {
      QuietMoveKeepsNotes(a, step);
    } else if step.ListChannels? {
      ListKeepsNotes(a, step);
    } else if step.Dispatch? {
      DispatchKeepsNotes(a, step);
    } else if step.Finish? || (step.Abort? && Behind(a.s.workers[step.w])) {
      LeaveKeepsNotes(a, step);
    } else if step.Insert? && a.s.workers[step.w].e.id !in a.s.stored {
      InsertKeepsNotes(a, step.w);
    } else {
      StepKeeps(a.s, step);
      FrontStepStaysInFront(a.s, step);
      hide Inv, DeliveryInv;
      FrontStepKeepsNotes(a, Watch(a, step));
    }
  }

  lemma {:induction false} DeliveryInvHolds(a: Watched, steps: seq<Step>)
    requires DeliveryInv(a) && Legal(a.s, steps)
    ensures DeliveryInv(WatchAll(a, steps))
    decreases steps
  {
    hide DeliveryInv, Apply, Enabled;
    if steps != [] {
      WatchKeeps(a, steps[0]);
      DeliveryInvHolds(Watch(a, steps[0]), steps[1..]);
    }
  }

  lemma StartInv()
    ensures DeliveryInv(Start())
  {
    InitialInv();
    hide Inv;
  }

  // ----- the guarantee -----

  /**
   * Over every run: once a worker has come to its end with an event, the channels
   * that have a delivery for it or were found disabled are exactly those listed.
   */
  lemma FinishedMeansDelivered(steps: seq<Step>, event: int, channel: int)
    requires Legal(Initial(), steps) && event in WatchAll(Start(), steps).finished
    ensures var a := WatchAll(Start(), steps);
            a.s == Exec(Initial(), steps)
            && (channel in Rows(a.listed, event)
                <==> channel in Rows(a.s.deliveries, event) || channel in Rows(a.skipped, event))
  {
    hide Legal, Exec, WatchAll, Inv, Rows;
    StartInv();
    DeliveryInvHolds(Start(), steps);
    WatchingChangesNothing(Start(), steps);
    var a := WatchAll(Start(), steps);
    assert Covered(a, event, []);
  }
}

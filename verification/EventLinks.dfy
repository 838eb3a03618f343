/**
 * Links between events and incidents: an event that was dealt with is linked to
 * the incident of its timeline entry unless its one linking statement failed, and
 * every link and entry leads to an incident of the event's tenant and fingerprint.
 */
module EventLinks {
  import opened Prelude
  import opened EventConsumer

  /** A run of the consumer, and the events whose linking statement failed. */
  datatype Observed = Observed(s: System, failed: set<int>)

  function Observe(o: Observed, step: Step): Observed
    requires Enabled(o.s, step)
  {
    Observed(Apply(o.s, step), if step.Link? && !step.ok then o.failed + {o.s.workers[step.w].e.id} else o.failed)
  }

  function ObserveAll(o: Observed, steps: seq<Step>): Observed
    requires Legal(o.s, steps)
    decreases steps
  {
    if steps == [] then o else ObserveAll(Observe(o, steps[0]), steps[1..])
  }

  function Start(): Observed { Observed(Initial(), {}) }

  lemma {:induction false} ObservingChangesNothing(o: Observed, steps: seq<Step>)
    requires Legal(o.s, steps)
    ensures ObserveAll(o, steps).s == Exec(o.s, steps)
    decreases steps
  {
    hide Apply, Enabled;
    if steps != [] {
      ObservingChangesNothing(Observe(o, steps[0]), steps[1..]);
    }
  }

  /** The links of an event whose incident is known. */
  predicate LinkedUnlessFailed(o: Observed, event: int, incident: int) {
    Rows(o.s.links, event) == if event in o.failed then [] else [incident]
  }

  /** What is linked for the event of a worker in phase `p`. */
  predicate LinkFits(o: Observed, p: Phase) {
    match p
    case Linked(e, i) => LinkedUnlessFailed(o, e.id, i)
    case Opened(e, i) => LinkedUnlessFailed(o, e.id, i)
    case Notifying(e, i, _) => LinkedUnlessFailed(o, e.id, i)
    case _ => p.e.id !in o.failed
  }

  /** What is linked for an event nobody is working on. */
  predicate LinkRests(o: Observed, event: int) {
    if event !in o.s.stored then event !in o.failed
    else o.s.stored[event].fingerprint.Some? && event !in o.s.lost ==>
      Rows(o.s.links, event) == if event in o.failed then [] else Rows(o.s.timeline, event)
  }

  ghost predicate LinkInv(o: Observed) {
    && Inv(o.s)
    && (forall w :: w in o.s.workers && Behind(o.s.workers[w]) ==> LinkFits(o, o.s.workers[w]))
    && (forall event :: !InProgress(o.s, event) ==> LinkRests(o, event))
  }

  /** The links and failures of other events are as they were. */
  ghost predicate LinksSameElsewhere(o: Observed, n: Observed, event: int) {
    forall x :: x != event ==> (x in n.failed <==> x in o.failed)
  }

  /** The worker's new phase fits, or the event it left is at rest as it should be. */
  predicate LinkEndsWell(o: Observed, n: Observed, w: nat)
    requires w in o.s.workers
  {
    if w in n.s.workers then LinkFits(n, n.s.workers[w]) else LinkRests(n, o.s.workers[w].e.id)
  }

  lemma ElsewhereTheSame(o: Observed, n: Observed, w: nat, event: int)
    requires SameElsewhere(o.s, n.s, w, event) && LinksSameElsewhere(o, n, event)
    ensures forall p: Phase :: p.e.id != event ==> LinkFits(n, p) == LinkFits(o, p)
    ensures forall x :: x != event ==> LinkRests(n, x) == LinkRests(o, x)
  {
    hide Rows;
  }

  lemma BehindStepKeepsLinks(o: Observed, n: Observed, w: nat)
    requires LinkInv(o) && Inv(n.s) && w in o.s.workers && Behind(o.s.workers[w])
    requires SameElsewhere(o.s, n.s, w, o.s.workers[w].e.id) && EndsWell(o.s, n.s, w)
    requires LinksSameElsewhere(o, n, o.s.workers[w].e.id) && LinkEndsWell(o, n, w)
    ensures LinkInv(n)
  {
    var event := o.s.workers[w].e.id;
    ElsewhereTheSame(o, n, w, event);
    assert WorkerInv(o.s, w);
    hide LinkFits, LinkRests, Fits, Rests, Rows;
    forall v | v in n.s.workers && Behind(n.s.workers[v]) ensures LinkFits(n, n.s.workers[v]) {
      if v != w {
        OtherWorkers(o.s, n.s, w, v);
        assert o.s.workers[v].e.id != event;
      }
    }
    forall x | !InProgress(n.s, x) ensures LinkRests(n, x) {
      if x != event {
        NotInProgressBefore(o.s, n.s, w, event, x);
      }
    }
  }

  lemma NotInProgressBefore(s: System, t: System, w: nat, event: int, x: int)
    requires SameElsewhere(s, t, w, event) && w in s.workers && s.workers[w].e.id == event && x != event
    requires !InProgress(t, x)
    ensures !InProgress(s, x)
  {
    hide Rows;
    forall v | v in s.workers && Behind(s.workers[v]) && v != w ensures s.workers[v].e.id != x {
      OtherWorkers(s, t, w, v);
    }
  }

  // ----- each step behind the gate -----

  lemma LinkStepEndsWell(o: Observed, step: Step)
    requires LinkInv(o) && Enabled(o.s, step) && step.Link?
    ensures LinkEndsWell(o, Observe(o, step), step.w)
  {
    assert WorkerInv(o.s, step.w);
    var p := o.s.workers[step.w];
    assert LinkFits(o, p);
    AddChangesOneEvent(o.s.links, p.e.id, p.incident);
    hide Inv, WorkerInv, Rests, Add, Rows;
    assert [] + [p.incident] == [p.incident];
  }

  lemma CreateStepEndsWell(o: Observed, step: Step)
    requires LinkInv(o) && Enabled(o.s, step) && step.Create?
    ensures LinkEndsWell(o, Observe(o, step), step.w)
  {
    assert WorkerInv(o.s, step.w);
    var p := o.s.workers[step.w];
    assert LinkFits(o, p);
    AddChangesOneEvent(o.s.links, p.e.id, step.incident);
    hide Inv, WorkerInv, Rests, Add, Rows;
    assert [] + [step.incident] == [step.incident];
  }

  lemma OtherStepEndsWell(o: Observed, step: Step)
    requires LinkInv(o) && Enabled(o.s, step) && (step.Look? || step.Note? || step.ListChannels? || step.Dispatch?)
    ensures LinkEndsWell(o, Observe(o, step), step.w)
  {
    assert LinkFits(o, o.s.workers[step.w]);
    hide Inv, Rests, Add, Rows, OpenFor, Distinct;
  }

  lemma LeavingEndsWell(o: Observed, step: Step)
    requires LinkInv(o) && Enabled(o.s, step) && (step.Finish? || (step.Abort? && Behind(o.s.workers[step.w])))
    ensures LinkEndsWell(o, Observe(o, step), step.w)
  {
    assert WorkerInv(o.s, step.w);
    var p := o.s.workers[step.w];
    assert LinkFits(o, p);
    hide Inv, WorkerInv, Rests, Rows, OpenFor, Distinct;
  }

  lemma OnlyItsEventFails(o: Observed, step: Step)
    requires Enabled(o.s, step) && IsBehindStep(o.s, step)
    ensures LinksSameElsewhere(o, Observe(o, step), o.s.workers[step.w].e.id)
    ensures Observe(o, step).s == Apply(o.s, step)
  {
    hide Apply, OpenFor;
  }

  /** Steps in front of the gate, and an operator's. */
  lemma FrontStepKeepsLinks(o: Observed, n: Observed)
    requires LinkInv(o) && Inv(n.s) && SameBehind(o.s, n.s) && n.failed == o.failed
    ensures LinkInv(n)
  {
    hide Inv, Rows;
    assert forall p: Phase :: LinkFits(n, p) == LinkFits(o, p);
    assert forall x :: LinkRests(n, x) == LinkRests(o, x);
    hide LinkFits, LinkRests;
    forall x | !InProgress(n.s, x) ensures LinkRests(n, x) {
      assert !InProgress(o.s, x);
    }
  }

  lemma InsertKeepsLinks(o: Observed, w: nat)
    requires LinkInv(o) && Enabled(o.s, Insert(w)) && o.s.workers[w].e.id !in o.s.stored
    ensures LinkInv(Observe(o, Insert(w)))
  {
    InsertKeeps(o.s, w);
    var n, e := Observe(o, Insert(w)), o.s.workers[w].e;
    forall v | v in o.s.workers && Behind(o.s.workers[v]) ensures o.s.workers[v].e.id != e.id {
      assert WorkerInv(o.s, v);
    }
    assert !InProgress(o.s, e.id) && LinkRests(o, e.id);
    hide Inv, Rows;
    assert forall v :: v in o.s.workers && Behind(o.s.workers[v]) ==> v in n.s.workers && n.s.workers[v] == o.s.workers[v];
    assert forall x :: InProgress(o.s, x) ==> InProgress(n.s, x);
    assert Behind(n.s.workers[w]) && InProgress(n.s, e.id);
    forall v | v in n.s.workers && Behind(n.s.workers[v]) ensures LinkFits(n, n.s.workers[v]) {
      assert v != w ==> LinkFits(o, o.s.workers[v]);
    }
    forall x | !InProgress(n.s, x) ensures LinkRests(n, x) {
      assert x != e.id && LinkRests(o, x);
    }
  }

  lemma ObserveKeeps(o: Observed, step: Step)
    requires LinkInv(o) && Enabled(o.s, step)
    ensures LinkInv(Observe(o, step))
  {
    StepKeeps(o.s, step);
    if IsBehindStep(o.s, step) {
      if step.Link? {
        LinkStepEndsWell(o, step);
      } else if step.Create? {
        CreateStepEndsWell(o, step);
      } else if step.Finish? || step.Abort? {
        LeavingEndsWell(o, step);
      } else {
        OtherStepEndsWell(o, step);
      }
      OnlyItsEventFails(o, step);
      hide Apply, SameElsewhere, EndsWell, LinkInv, Inv, Observe, LinkEndsWell, LinksSameElsewhere;
      BehindStepStaysLocal(o, step);
      BehindStepKeepsLinks(o, Observe(o, step), step.w);
    } else if step.Insert? && o.s.workers[step.w].e.id !in o.s.stored {
      InsertKeepsLinks(o, step.w);
    } else {
      FrontStepStaysInFront(o.s, step);
      hide Inv, LinkInv, Apply;
      FrontStepKeepsLinks(o, Observe(o, step));
    }
  }

  lemma BehindStepStaysLocal(o: Observed, step: Step)
    requires LinkInv(o) && Enabled(o.s, step) && IsBehindStep(o.s, step)
    ensures Behind(o.s.workers[step.w])
    ensures SameElsewhere(o.s, Apply(o.s, step), step.w, o.s.workers[step.w].e.id) && EndsWell(o.s, Apply(o.s, step), step.w)
  {
    hide Inv, Apply, SameElsewhere, EndsWell;
    BehindStepIsLocal(o.s, step);
  }

  lemma {:induction false} LinkInvHolds(o: Observed, steps: seq<Step>)
    requires LinkInv(o) && Legal(o.s, steps)
    ensures LinkInv(ObserveAll(o, steps))
    decreases steps
  {
    hide LinkInv, Apply, Enabled;
    if steps != [] {
      ObserveKeeps(o, steps[0]);
      LinkInvHolds(Observe(o, steps[0]), steps[1..]);
    }
  }

  lemma StartInv()
    ensures LinkInv(Start())
  {
    InitialInv();
    hide Inv;
  }

  // ----- the guarantees -----

  /**
   * Over every run: a stored event with a fingerprint that nobody is working on
   * and that was not lost has one timeline entry; it has exactly one link, to the
   * incident of that entry, if and only if its linking statement did not fail.
   */
  lemma LinkedIffLinkingSucceeded(steps: seq<Step>, event: int)
    requires Legal(Initial(), steps)
    requires var s := Exec(Initial(), steps);
             AtRest(s, event) && s.stored[event].fingerprint.Some? && event !in s.lost
    ensures var s, failed := Exec(Initial(), steps), ObserveAll(Start(), steps).failed;
            && |Rows(s.timeline, event)| == 1
            && (if event in failed then Rows(s.links, event) == []
                else Rows(s.links, event) == [Rows(s.timeline, event)[0]])
  {
    hide Legal, Exec, ObserveAll, Rows;
    StartInv();
    LinkInvHolds(Start(), steps);
    ObservingChangesNothing(Start(), steps);
    EntryIffNotLost(steps, event);
    var o := ObserveAll(Start(), steps);
    hide Inv;
    assert LinkRests(o, event);
    assert |Rows(o.s.timeline, event)| == 1 ==> Rows(o.s.timeline, event) == [Rows(o.s.timeline, event)[0]];
  }

  /** Without a failing linking statement nothing counts as failed. */
  lemma {:induction false} NoFailedLinks(o: Observed, steps: seq<Step>)
    requires Legal(o.s, steps) && forall i :: 0 <= i < |steps| && steps[i].Link? ==> steps[i].ok
    ensures ObserveAll(o, steps).failed == o.failed
    decreases steps
  {
    hide Apply, Enabled;
    if steps != [] {
      NoFailedLinks(Observe(o, steps[0]), steps[1..]);
    }
  }

  // ----- the right incident -----

  /** The incident exists, under the event's tenant and fingerprint. */
  predicate Matches(s: System, incident: int, e: Envelope) {
    && incident in s.incidents && e.fingerprint.Some?
    && s.incidents[incident].tenant == e.tenant && s.incidents[incident].fingerprint == e.fingerprint.value
  }

  predicate HasIncident(p: Phase) { p.Found? || p.Linked? || p.Opened? || p.Notifying? }

  predicate RowsMatch(s: System, rows: seq<int>, e: Envelope) { forall i :: i in rows ==> Matches(s, i, e) }

  ghost predicate MatchInv(s: System) {
    && Inv(s)
    && (forall w :: w in s.workers && HasIncident(s.workers[w]) ==> Matches(s, s.workers[w].incident, s.workers[w].e))
    && (forall event :: event in s.stored ==>
          RowsMatch(s, Rows(s.links, event), s.stored[event]) && RowsMatch(s, Rows(s.timeline, event), s.stored[event]))
  }

  /** Incidents keep their tenant and fingerprint. */
  predicate IncidentsStay(s: System, t: System) {
    forall i :: i in s.incidents ==>
      && i in t.incidents && t.incidents[i].tenant == s.incidents[i].tenant
      && t.incidents[i].fingerprint == s.incidents[i].fingerprint
  }

  lemma StepKeepsIncidents(s: System, step: Step)
    requires Enabled(s, step)
    ensures IncidentsStay(s, Apply(s, step))
  {
    hide Add, Rows, OpenFor, Distinct;
  }

  /** Whatever a step adds to its event's rows is the incident of its worker's new phase. */
  ghost predicate AddsItsIncident(s: System, t: System, w: nat)
    requires w in s.workers
  {
    var e := s.workers[w].e;
    && t.stored == s.stored
    && (w in t.workers ==> t.workers[w].e == e)
    && (forall i :: i in Rows(t.links, e.id) + Rows(t.timeline, e.id) ==>
          i in Rows(s.links, e.id) + Rows(s.timeline, e.id)
          || (w in t.workers && HasIncident(t.workers[w]) && i == t.workers[w].incident))
  }

  lemma LinkAddsItsIncident(s: System, step: Step)
    requires Enabled(s, step) && (step.Link? || step.Note?)
    ensures AddsItsIncident(s, Apply(s, step), step.w)
  {
    var p := s.workers[step.w];
    AddChangesOneEvent(s.links, p.e.id, p.incident);
    AddChangesOneEvent(s.timeline, p.e.id, p.incident);
    hide Add, Rows;
  }

  lemma CreateAddsItsIncident(s: System, step: Step)
    requires Enabled(s, step) && step.Create?
    ensures AddsItsIncident(s, Apply(s, step), step.w)
  {
    var p := s.workers[step.w];
    AddChangesOneEvent(s.links, p.e.id, step.incident);
    AddChangesOneEvent(s.timeline, p.e.id, step.incident);
    hide Add, Rows;
  }

  lemma StepAddsItsIncident(s: System, step: Step)
    requires Enabled(s, step) && IsBehindStep(s, step)
    ensures AddsItsIncident(s, Apply(s, step), step.w)
  {
    if step.Link? || step.Note? {
      LinkAddsItsIncident(s, step);
    } else if step.Create? {
      CreateAddsItsIncident(s, step);
    } else {
      hide Add, Rows, OpenFor, Distinct;
    }
  }

  /** The incident of a worker's new phase is one of its event's kind. */
  lemma NewPhaseMatches(s: System, step: Step)
    requires MatchInv(s) && Enabled(s, step) && IsBehindStep(s, step)
    ensures var t := Apply(s, step);
            step.w in t.workers && HasIncident(t.workers[step.w]) ==>
              Matches(t, t.workers[step.w].incident, t.workers[step.w].e)
  {
    hide Inv, Add, Rows, Distinct, RowsMatch;
    match step
    case Look(_, found) =>
    case Link(_, _) =>
    case Note(_) =>
    case Create(_, _) =>
    case ListChannels(_, _) =>
    case Dispatch(_, _) =>
    case Finish(_) =>
    case Abort(_) =>
  }

  lemma RowsStillMatch(s: System, t: System, rows: seq<int>, e: Envelope)
    requires IncidentsStay(s, t) && RowsMatch(s, rows, e)
    ensures RowsMatch(t, rows, e)
  {
  }

  lemma BehindStepMatches(s: System, step: Step)
    requires MatchInv(s) && Enabled(s, step) && IsBehindStep(s, step)
    ensures MatchInv(Apply(s, step))
  {
    StepKeeps(s, step);
    BehindStepIsLocal(s, step);
    StepKeepsIncidents(s, step);
    NewPhaseMatches(s, step);
    StepAddsItsIncident(s, step);
    assert WorkerInv(s, step.w);
    hide Apply, Enabled, Inv, WorkerInv, Rows, EndsWell, OpenFor;
    var t, w, e := Apply(s, step), step.w, s.workers[step.w].e;
    forall v | v in t.workers && HasIncident(t.workers[v]) ensures Matches(t, t.workers[v].incident, t.workers[v].e) {
      if v != w { OtherWorkers(s, t, w, v); }
    }
    forall event | event in t.stored
      ensures RowsMatch(t, Rows(t.links, event), t.stored[event]) && RowsMatch(t, Rows(t.timeline, event), t.stored[event])
    {
      RowsStillMatch(s, t, Rows(s.links, event), s.stored[event]);
      RowsStillMatch(s, t, Rows(s.timeline, event), s.stored[event]);
      if event == e.id {
        assert forall i :: i in Rows(t.links, event) ==> i in Rows(t.links, e.id) + Rows(t.timeline, e.id);
        assert forall i :: i in Rows(t.timeline, event) ==> i in Rows(t.links, e.id) + Rows(t.timeline, e.id);
      }
    }
  }

  lemma FrontStepMatches(s: System, t: System)
    requires MatchInv(s) && Inv(t) && SameBehind(s, t) && IncidentsStay(s, t)
    ensures MatchInv(t)
  {
    hide Inv, Rows, Matches, RowsMatch;
    forall v | v in t.workers && HasIncident(t.workers[v]) ensures Matches(t, t.workers[v].incident, t.workers[v].e) {
      StillMatches(s, t, t.workers[v].incident, t.workers[v].e);
    }
    forall event | event in t.stored
      ensures RowsMatch(t, Rows(t.links, event), t.stored[event]) && RowsMatch(t, Rows(t.timeline, event), t.stored[event])
    {
      RowsStillMatch(s, t, Rows(s.links, event), s.stored[event]);
      RowsStillMatch(s, t, Rows(s.timeline, event), s.stored[event]);
    }
  }

  lemma StillMatches(s: System, t: System, i: int, e: Envelope)
    requires IncidentsStay(s, t) && Matches(s, i, e)
    ensures Matches(t, i, e)
  {
  }

  lemma InsertMatches(s: System, w: nat)
    requires MatchInv(s) && Enabled(s, Insert(w)) && s.workers[w].e.id !in s.stored
    ensures MatchInv(Apply(s, Insert(w)))
  {
    InsertKeeps(s, w);
    var t, e := Apply(s, Insert(w)), s.workers[w].e;
    forall v | v in s.workers && Behind(s.workers[v]) ensures s.workers[v].e.id != e.id {
      assert WorkerInv(s, v);
    }
    assert !InProgress(s, e.id) && Rests(s, e.id);
    hide Inv, Rows;
    assert forall i, x: Envelope :: Matches(t, i, x) == Matches(s, i, x);
  }

  lemma StepMatches(s: System, step: Step)
    requires MatchInv(s) && Enabled(s, step)
    ensures MatchInv(Apply(s, step))
  {
    if IsBehindStep(s, step) {
      BehindStepMatches(s, step);
    } else if step.Insert? && s.workers[step.w].e.id !in s.stored {
      InsertMatches(s, step.w);
    } else {
      StepKeeps(s, step);
      FrontStepStaysInFront(s, step);
      StepKeepsIncidents(s, step);
      hide Inv, MatchInv, Apply;
      FrontStepMatches(s, Apply(s, step));
    }
  }

  lemma {:induction false} MatchInvHolds(s: System, steps: seq<Step>)
    requires MatchInv(s) && Legal(s, steps)
    ensures MatchInv(Exec(s, steps))
    decreases steps
  {
    hide MatchInv, Apply, Enabled;
    if steps != [] {
      StepMatches(s, steps[0]);
      MatchInvHolds(Apply(s, steps[0]), steps[1..]);
    }
  }

  /** Over every run, each link and each timeline entry of an event leads to an incident of its tenant and fingerprint. */
  lemma EventsJoinTheRightIncident(steps: seq<Step>, event: int, incident: int)
    requires Legal(Initial(), steps) && event in Exec(Initial(), steps).stored
    requires var s := Exec(Initial(), steps); incident in Rows(s.links, event) || incident in Rows(s.timeline, event)
    ensures var s := Exec(Initial(), steps);
            var e := s.stored[event];
            && incident in s.incidents && e.fingerprint.Some?
            && s.incidents[incident].tenant == e.tenant && s.incidents[incident].fingerprint == e.fingerprint.value
  {
    hide Legal, Exec, Rows, Inv;
    InitialMatches();
    MatchInvHolds(Initial(), steps);
  }

  lemma InitialMatches()
    ensures MatchInv(Initial())
  {
    InitialInv();
    hide Inv;
  }
}

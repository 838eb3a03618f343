/**
 * One open incident per fingerprint: the consumer looks for an open incident and
 * creates one in separate statements, and an operator reopens without looking.
 * Exactly these two races let a fingerprint have two open incidents.
 */
module IncidentRaces {
  import opened Prelude
  import opened EventConsumer

  predicate SameKey(a: Envelope, b: Envelope) { a.fingerprint.Some? && a.tenant == b.tenant && a.fingerprint == b.fingerprint }

  predicate OneOpen(s: System) {
    forall i, j :: i in s.incidents && j in s.incidents && s.incidents[i].open && s.incidents[i] == s.incidents[j] ==> i == j
  }

  /** A worker about to create an incident is the only one for its fingerprint, and none is open. */
  predicate CreatorsAreAlone(s: System) {
    && (forall w, i :: w in s.workers && s.workers[w].Creating? && i in s.incidents
          ==> !OpenFor(s.incidents[i], s.workers[w].e))
    && (forall v, w ::
          (v in s.workers && w in s.workers && s.workers[v].Creating? && s.workers[w].Creating?
           && SameKey(s.workers[v].e, s.workers[w].e)) ==> v == w)
  }

  /**
   * The two races the code leaves open: a worker finds no incident while another
   * is about to create one, or an operator reopens one while another is open or
   * about to be created.
   */
  predicate Races(s: System, step: Step)
    requires Enabled(s, step)
  {
    match step
    case Look(w, found) => found.None? && exists v :: v in s.workers && s.workers[v].Creating? && SameKey(s.workers[v].e, s.workers[w].e)
    case SetStatus(i, open) =>
      var inc := s.incidents[i];
      open
      && ((exists v :: v in s.workers && s.workers[v].Creating? && OpenFor(inc.(open := true), s.workers[v].e))
          || exists j :: j in s.incidents && j != i && s.incidents[j] == inc.(open := true))
    case _ => false
  }

  predicate RaceFree(s: System, steps: seq<Step>)
    requires Legal(s, steps)
    decreases steps
  {
    steps == [] || (!Races(s, steps[0]) && RaceFree(Apply(s, steps[0]), steps[1..]))
  }

  /** The incidents are the same, and nobody newly means to create one. */
  predicate NoNewCreators(s: System, t: System) {
    && t.incidents == s.incidents
    && forall w :: w in t.workers && t.workers[w].Creating? ==> w in s.workers && t.workers[w] == s.workers[w]
  }

  lemma QuietStepsAddNoCreators(s: System, step: Step)
    requires Enabled(s, step) && !step.Look? && !step.Create? && !step.SetStatus?
    ensures NoNewCreators(s, Apply(s, step))
  {
    hide Add, Rows, Distinct, OpenFor;
    match step
    case Deliver(_, _) =>
    case Insert(_) =>
    case Link(_, _) =>
    case Note(_) =>
    case ListChannels(_, _) =>
    case Dispatch(_, _) =>
    case Finish(_) =>
    case Abort(_) =>
  }

  lemma NoNewCreatorsKeepsOneOpen(s: System, t: System)
    requires NoNewCreators(s, t) && OneOpen(s) && CreatorsAreAlone(s)
    ensures OneOpen(t) && CreatorsAreAlone(t)
  {
    hide OpenFor, SameKey;
  }

  lemma LookKeepsOneOpen(s: System, step: Step)
    requires Enabled(s, step) && step.Look? && !Races(s, step) && OneOpen(s) && CreatorsAreAlone(s)
    ensures OneOpen(Apply(s, step)) && CreatorsAreAlone(Apply(s, step))
  {
    var t := Apply(s, step);
    assert forall w :: w in t.workers && w != step.w ==> w in s.workers && t.workers[w] == s.workers[w];
    forall v, w | v in t.workers && w in t.workers && t.workers[v].Creating? && t.workers[w].Creating?
                  && SameKey(t.workers[v].e, t.workers[w].e)
      ensures v == w
    {
      assert SameKey(t.workers[w].e, t.workers[v].e);
    }
  }

  lemma CreateKeepsOneOpen(s: System, step: Step)
    requires Enabled(s, step) && step.Create? && OneOpen(s) && CreatorsAreAlone(s)
    ensures OneOpen(Apply(s, step)) && CreatorsAreAlone(Apply(s, step))
  {
    hide Add;
    var t, e := Apply(s, step), s.workers[step.w].e;
    assert forall i :: i in s.incidents ==> !OpenFor(s.incidents[i], e) && t.incidents[i] == s.incidents[i];
    assert forall w :: w in t.workers && w != step.w ==> w in s.workers && t.workers[w] == s.workers[w];
    forall w, i | w in t.workers && t.workers[w].Creating? && i in t.incidents
      ensures !OpenFor(t.incidents[i], t.workers[w].e)
    {
      assert !SameKey(t.workers[w].e, e);
    }
  }

  lemma SetStatusKeepsOneOpen(s: System, step: Step)
    requires Enabled(s, step) && step.SetStatus? && !Races(s, step) && OneOpen(s) && CreatorsAreAlone(s)
    ensures OneOpen(Apply(s, step)) && CreatorsAreAlone(Apply(s, step))
  {
  }

  lemma RaceFreeStepKeeps(s: System, step: Step)
    requires Enabled(s, step) && !Races(s, step) && OneOpen(s) && CreatorsAreAlone(s)
    ensures OneOpen(Apply(s, step)) && CreatorsAreAlone(Apply(s, step))
  {
    hide Enabled, Apply, Races, OneOpen, CreatorsAreAlone;
    if step.Look? {
      LookKeepsOneOpen(s, step);
    } else if step.Create? {
      CreateKeepsOneOpen(s, step);
    } else if step.SetStatus? {
      SetStatusKeepsOneOpen(s, step);
    } else {
      QuietStepsAddNoCreators(s, step);
      NoNewCreatorsKeepsOneOpen(s, Apply(s, step));
    }
  }

  /** Without those two races, no fingerprint ever has two open incidents. */
  lemma {:induction false} OneOpenIncidentPerFingerprint(s: System, steps: seq<Step>)
    requires Legal(s, steps) && RaceFree(s, steps) && OneOpen(s) && CreatorsAreAlone(s)
    ensures OneOpen(Exec(s, steps))
    decreases steps
  {
    hide Enabled, Apply, Races, OneOpen, CreatorsAreAlone;
    if steps != [] {
      RaceFreeStepKeeps(s, steps[0]);
      OneOpenIncidentPerFingerprint(Apply(s, steps[0]), steps[1..]);
    }
  }

  /** Some race-free continuation ends with two open incidents of one fingerprint. */
  ghost predicate CanBreak(s: System) {
    exists more :: Legal(s, more) && RaceFree(s, more) && !OneOpen(Exec(s, more))
  }

  /** Some id that no incident has yet. */
  lemma UnusedIds(incidents: map<int, Incident>) returns (i: int, j: int)
    ensures i != j && i !in incidents && j !in incidents
  {
    var top := UpperBound(incidents.Keys);
    i, j := top + 1, top + 2;
    assert i !in incidents.Keys && j !in incidents.Keys;
  }

  lemma UpperBound(ids: set<int>) returns (top: int)
    ensures forall i :: i in ids ==> i <= top
    decreases |ids|
  {
    top := 0;
    if x :| x in ids {
      var rest := UpperBound(ids - {x});
      top := if x > rest then x else rest;
      assert forall i :: i in ids ==> i == x || i in ids - {x};
    }
  }

  lemma SingleStep(s: System, step: Step)
    requires Enabled(s, step)
    ensures Legal(s, [step]) && Exec(s, [step]) == Apply(s, step)
    ensures !Races(s, step) ==> RaceFree(s, [step])
  {
    hide Enabled, Apply, Races;
    assert [step][1..] == [];
  }

  lemma TwoSteps(s: System, a: Step, b: Step)
    requires Enabled(s, a) && Enabled(Apply(s, a), b)
    ensures Legal(s, [a, b]) && Exec(s, [a, b]) == Apply(Apply(s, a), b)
    ensures !Races(s, a) && !Races(Apply(s, a), b) ==> RaceFree(s, [a, b])
  {
    hide Enabled, Apply, Races;
    SingleStep(Apply(s, a), b);
    assert [a, b][1..] == [b];
  }

  /** An open incident for the key of a worker about to create one: creating it makes two. */
  lemma CreateBesideOpen(s: System, w: nat, i: int)
    requires w in s.workers && s.workers[w].Creating? && i in s.incidents && OpenFor(s.incidents[i], s.workers[w].e)
    ensures CanBreak(s)
  {
    var j, _ := UnusedIds(s.incidents);
    SingleStep(s, Create(w, j));
    var t := Apply(s, Create(w, j));
    assert t.incidents[i] == t.incidents[j];
    assert !OneOpen(t) && RaceFree(s, [Create(w, j)]);
  }

  /** Two workers about to create an incident for one key: the second makes two. */
  lemma TwoCreatorsBreak(s: System, v: nat, w: nat)
    requires v != w && v in s.workers && w in s.workers && s.workers[v].Creating? && s.workers[w].Creating?
    requires SameKey(s.workers[v].e, s.workers[w].e)
    ensures CanBreak(s)
  {
    hide Add;
    var i, j := UnusedIds(s.incidents);
    var m := Apply(s, Create(v, i));
    TwoSteps(s, Create(v, i), Create(w, j));
    var t := Apply(m, Create(w, j));
    assert t.incidents[i] == t.incidents[j];
    hide Apply, Enabled, Legal, Exec;
    assert !OneOpen(t) && RaceFree(s, [Create(v, i), Create(w, j)]);
  }

  lemma ReopenBesideOpenBreaks(s: System, step: Step, j: int)
    requires Enabled(s, step) && step.SetStatus? && step.open && j in s.incidents && j != step.incident
    requires s.incidents[j] == s.incidents[step.incident].(open := true)
    ensures CanBreak(Apply(s, step))
  {
    var t := Apply(s, step);
    assert t.incidents[step.incident] == t.incidents[j];
    assert Legal(t, []) && RaceFree(t, []) && !OneOpen(Exec(t, []));
  }

  lemma RaceBreaks(s: System, step: Step)
    requires Enabled(s, step) && Races(s, step)
    ensures CanBreak(Apply(s, step))
  {
    hide CanBreak, OneOpen;
    var t := Apply(s, step);
    if step.Look? {
      var v :| v in s.workers && s.workers[v].Creating? && SameKey(s.workers[v].e, s.workers[step.w].e);
      TwoCreatorsBreak(t, v, step.w);
    } else if v :| v in s.workers && s.workers[v].Creating?
                   && OpenFor(s.incidents[step.incident].(open := true), s.workers[v].e) {
      CreateBesideOpen(t, v, step.incident);
    } else {
      var j :| j in s.incidents && j != step.incident && s.incidents[j] == s.incidents[step.incident].(open := true);
      ReopenBesideOpenBreaks(s, step, j);
    }
  }

  /**
   * The two races are exactly what breaks the promise: from a state with one
   * open incident per fingerprint and lone creators, a step leads to a state from
   * which a race-free run can open a second one if and only if it is a race.
   */
  lemma RacesAreExact(s: System, step: Step)
    requires Enabled(s, step) && OneOpen(s) && CreatorsAreAlone(s)
    ensures Races(s, step) <==> CanBreak(Apply(s, step))
  {
    hide *;
    if Races(s, step) {
      RaceBreaks(s, step);
    } else {
      RaceFreeStepKeeps(s, step);
      CannotBreak(Apply(s, step));
    }
  }

  lemma CannotBreak(s: System)
    requires OneOpen(s) && CreatorsAreAlone(s)
    ensures !CanBreak(s)
  {
    hide OneOpen, CreatorsAreAlone, Legal, RaceFree, Exec;
    forall more | Legal(s, more) && RaceFree(s, more) ensures OneOpen(Exec(s, more)) {
      OneOpenIncidentPerFingerprint(s, more);
    }
  }

  // ----- both races happen -----

  /** A worker takes a new event past the gate. */
  function TakeIn(w: nat, e: Envelope): seq<Step> { [Deliver(w, e)] + ([Insert(w)] + []) }

  /** A worker finds no incident and creates one. */
  function OpenNew(w: nat, i: int): seq<Step> { [Look(w, None)] + ([Create(w, i)] + []) }

  lemma {:induction false} RunsCompose(s: System, a: seq<Step>, b: seq<Step>)
    requires Legal(s, a) && Legal(Exec(s, a), b)
    ensures Legal(s, a + b) && Exec(s, a + b) == Exec(Exec(s, a), b)
    decreases a
  {
    hide Enabled, Apply;
    if a == [] {
      assert a + b == b;
    } else {
      assert (a + b)[0] == a[0] && (a + b)[1..] == a[1..] + b;
      RunsCompose(Apply(s, a[0]), a[1..], b);
    }
  }

  lemma TakenIn(s: System, w: nat, e: Envelope)
    requires w !in s.workers && e.id !in s.stored
    ensures Legal(s, TakeIn(w, e))
    ensures var t := Exec(s, TakeIn(w, e));
            t.workers == s.workers[w := Stored(e)] && t.incidents == s.incidents && t.stored == s.stored[e.id := e]
  {
    var a := Apply(s, Deliver(w, e));
    assert s.workers[w := Received(e)][w := Stored(e)] == s.workers[w := Stored(e)];
    OneStepThen(a, Insert(w), []);
    OneStepThen(s, Deliver(w, e), [Insert(w)] + []);
  }

  predicate NoneOpenFor(s: System, e: Envelope) { forall k :: k in s.incidents ==> !OpenFor(s.incidents[k], e) }

  lemma OpenedNew(s: System, w: nat, i: int)
    requires w in s.workers && s.workers[w].Stored? && s.workers[w].e.fingerprint.Some?
    requires i !in s.incidents && NoneOpenFor(s, s.workers[w].e)
    ensures Legal(s, OpenNew(w, i))
    ensures var t, e := Exec(s, OpenNew(w, i)), s.workers[w].e;
            && t.incidents == s.incidents[i := Incident(e.tenant, e.fingerprint.value, true)] && t.stored == s.stored
            && t.workers.Keys == s.workers.Keys
  {
    hide Add;
    var a := Apply(s, Look(w, None));
    OneStepThen(a, Create(w, i), []);
    OneStepThen(s, Look(w, None), [Create(w, i)] + []);
  }

  /** From the start: two workers take in events of one fingerprint, both find nothing, both open an incident. */
  lemma LookRaceHappens(e: Envelope, f: Envelope) returns (steps: seq<Step>)
    requires SameKey(e, f) && e.id != f.id
    ensures Legal(Initial(), steps) && !OneOpen(Exec(Initial(), steps))
  {
    hide Exec, Legal;
    TakenIn(Initial(), 0, e);
    var a := Exec(Initial(), TakeIn(0, e));
    TakenIn(a, 1, f);
    var b := Exec(a, TakeIn(1, f));
    var race := [Look(0, None)] + ([Look(1, None)] + ([Create(0, 0)] + ([Create(1, 1)] + [])));
    BothOpen(b, race);
    RunsCompose(a, TakeIn(1, f), race);
    RunsCompose(Initial(), TakeIn(0, e), TakeIn(1, f) + race);
    steps := TakeIn(0, e) + (TakeIn(1, f) + race);
  }

  lemma BothOpen(s: System, race: seq<Step>)
    requires race == [Look(0, None)] + ([Look(1, None)] + ([Create(0, 0)] + ([Create(1, 1)] + [])))
    requires 0 in s.workers && 1 in s.workers && s.workers[0].Stored? && s.workers[1].Stored?
    requires SameKey(s.workers[0].e, s.workers[1].e) && s.incidents == map[]
    ensures Legal(s, race) && !OneOpen(Exec(s, race))
  {
    hide Add, Legal, Exec;
    var a := Apply(s, Look(0, None));
    var b := Apply(a, Look(1, None));
    var c := Apply(b, Create(0, 0));
    var d := Apply(c, Create(1, 1));
    assert d.incidents[0] == d.incidents[1];
    NoSteps(d);
    OneStepThen(c, Create(1, 1), []);
    OneStepThen(b, Create(0, 0), [Create(1, 1)] + []);
    OneStepThen(a, Look(1, None), [Create(0, 0)] + ([Create(1, 1)] + []));
    OneStepThen(s, Look(0, None), [Look(1, None)] + ([Create(0, 0)] + ([Create(1, 1)] + [])));
  }

  lemma NoSteps(s: System)
    ensures Legal(s, []) && Exec(s, []) == s
  {
  }

  lemma StatusSet(s: System, i: int, open: bool)
    requires i in s.incidents
    ensures var steps := [SetStatus(i, open)] + [];
            Legal(s, steps) && Exec(s, steps) == s.(incidents := s.incidents[i := s.incidents[i].(open := open)])
  {
    hide Apply, Enabled, Add, Rows, OpenFor, Distinct;
    StatusApplied(s, i, open);
    NoSteps(Apply(s, SetStatus(i, open)));
    OneStepThen(s, SetStatus(i, open), []);
  }

  lemma StatusApplied(s: System, i: int, open: bool)
    requires i in s.incidents
    ensures Enabled(s, SetStatus(i, open))
    ensures Apply(s, SetStatus(i, open)) == s.(incidents := s.incidents[i := s.incidents[i].(open := open)])
  {
    hide Add, Rows, OpenFor, Distinct;
  }

  /**
   * From the start: an incident is opened and resolved, a later event of its
   * fingerprint opens another, and the operator reopens the first.
   */
  lemma ReopenRaceHappens(e: Envelope, f: Envelope) returns (steps: seq<Step>)
    requires SameKey(e, f) && e.id != f.id
    ensures Legal(Initial(), steps) && !OneOpen(Exec(Initial(), steps))
  {
    hide Exec, Legal, TakeIn, OpenNew;
    TakenIn(Initial(), 0, e);
    var a := Exec(Initial(), TakeIn(0, e));
    OpenedNew(a, 0, 0);
    var b := Exec(a, OpenNew(0, 0));
    StatusSet(b, 0, false);
    var c := Exec(b, [SetStatus(0, false)] + []);
    TakenIn(c, 1, f);
    var d := Exec(c, TakeIn(1, f));
    OpenedNew(d, 1, 1);
    var g := Exec(d, OpenNew(1, 1));
    StatusSet(g, 0, true);
    var last := [SetStatus(0, true)] + [];
    assert Exec(g, last).incidents[0] == Exec(g, last).incidents[1];
    RunsCompose(d, OpenNew(1, 1), last);
    RunsCompose(c, TakeIn(1, f), OpenNew(1, 1) + last);
    RunsCompose(b, [SetStatus(0, false)] + [], TakeIn(1, f) + (OpenNew(1, 1) + last));
    RunsCompose(a, OpenNew(0, 0), ([SetStatus(0, false)] + []) + (TakeIn(1, f) + (OpenNew(1, 1) + last)));
    steps := TakeIn(0, e) + (OpenNew(0, 0) + (([SetStatus(0, false)] + []) + (TakeIn(1, f) + (OpenNew(1, 1) + last))));
    RunsCompose(Initial(), TakeIn(0, e),
                OpenNew(0, 0) + (([SetStatus(0, false)] + []) + (TakeIn(1, f) + (OpenNew(1, 1) + last))));
  }
}

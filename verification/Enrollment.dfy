/**
 * Enrollment with a one-time token: any number of racing requests, failing
 * transactions, rollbacks that fail, crashes, and transactions that commit after
 * their request has given up on them.
 */
module Enrollment {
  import opened Prelude

  datatype Status = Active | Claiming | Used

  /** Where a request is: between its claim and its end, or past it. */
  datatype Phase = Claimed | Failing | Rejected | Replied | Failed | Crashed

  /**
   * The token row, the requests, the transactions whose outcome is still open,
   * and the agents that were committed, named after their request.
   */
  datatype System = System(
    status: Status, expiresAt: int, owner: Option<nat>,
    requests: map<nat, Phase>, pending: set<nat>, agents: set<nat>)

  datatype Step =
    | Claim(r: nat, now: int)     // the conditional update; the transaction begins
    | Commit(r: nat)              // the transaction finds the token still claiming
    | Drop(r: nat)                // the transaction rolls back
    | Reply(r: nat)               // the credential is returned
    | Throw(r: nat)               // the transaction failed, or its reply was lost
    | Rollback(r: nat)            // the claim is released
    | LoseRollback(r: nat)        // that update fails, and its failure is swallowed
    | Crash(r: nat)

  function Initial(expiresAt: int): System { System(Active, expiresAt, None, map[], {}, {}) }

  /** The request is between its claim and its commit or rollback. */
  predicate Holds(s: System, r: nat) { r in s.requests && (s.requests[r] == Claimed || s.requests[r] == Failing) }

  predicate Enabled(s: System, step: Step) {
    match step
    case Claim(r, _) => r !in s.requests
    case Commit(r) => r in s.pending && s.status == Claiming
    case Drop(r) => r in s.pending
    case Reply(r) => r in s.requests && s.requests[r] == Claimed && r in s.agents
    case Throw(r) => r in s.requests && s.requests[r] == Claimed
    case Rollback(r) => r in s.requests && s.requests[r] == Failing
    case LoseRollback(r) => r in s.requests && s.requests[r] == Failing
    case Crash(r) => Holds(s, r)
  }

  function Apply(s: System, step: Step): System
    requires Enabled(s, step)
  {
    match step
    case Claim(r, now) =>
      if s.status == Active && s.expiresAt > now
      then s.(status := Claiming, requests := s.requests[r := Claimed], pending := s.pending + {r})
      else s.(requests := s.requests[r := Rejected])
    case Commit(r) => s.(status := Used, owner := Some(r), agents := s.agents + {r}, pending := s.pending - {r})
    case Drop(r) => s.(pending := s.pending - {r})
    case Reply(r) => s.(requests := s.requests[r := Replied])
    case Throw(r) => s.(requests := s.requests[r := Failing])
    case Rollback(r) =>
      s.(status := if s.status == Claiming then Active else s.status, requests := s.requests[r := Failed])
    case LoseRollback(r) => s.(requests := s.requests[r := Failed])
    case Crash(r) => s.(requests := s.requests[r := Crashed])
  }

  predicate Legal(s: System, steps: seq<Step>)
    decreases steps
  {
    steps == [] || (Enabled(s, steps[0]) && Legal(Apply(s, steps[0]), steps[1..]))
  }

  function Exec(s: System, steps: seq<Step>): System
    requires Legal(s, steps)
    decreases steps
  {
    if steps == [] then s else Exec(Apply(s, steps[0]), steps[1..])
  }

  // ----- the invariant -----

  /** The token is used exactly when one agent is committed, and names that agent. */
  predicate OneAgent(s: System) {
    match s.owner
    case None => s.agents == {} && s.status != Used
    case Some(r) => s.agents == {r} && s.status == Used
  }

  ghost predicate OneHolder(s: System) {
    forall r, q :: Holds(s, r) && Holds(s, q) ==> r == q
  }

  ghost predicate Inv(s: System) {
    && OneAgent(s) && OneHolder(s)
    && (s.status == Active ==> forall r :: !Holds(s, r))
    && (forall r :: r in s.requests && s.requests[r] == Replied ==> r in s.agents)
  }

  lemma StepKeeps(s: System, step: Step)
    requires Inv(s) && Enabled(s, step)
    ensures Inv(Apply(s, step))
  {
    var t := Apply(s, step);
    assert forall r :: Holds(t, r) ==> Holds(s, r) || (step.Claim? && r == step.r);
    assert step.Rollback? ==> Holds(s, step.r) && !Holds(t, step.r);
  }

  lemma {:induction false} InvHolds(s: System, steps: seq<Step>)
    requires Inv(s) && Legal(s, steps)
    ensures Inv(Exec(s, steps))
    decreases steps
  {
    hide Inv, Apply, Enabled;
    if steps != [] {
      StepKeeps(s, steps[0]);
      InvHolds(Apply(s, steps[0]), steps[1..]);
    }
  }

  // ----- the guarantees -----

  /** At most one agent is ever committed; the token is used exactly when one is, and names it. */
  lemma AtMostOneAgent(expiresAt: int, steps: seq<Step>)
    requires Legal(Initial(expiresAt), steps)
    ensures var s := Exec(Initial(expiresAt), steps);
            |s.agents| <= 1 && (s.status == Used <==> |s.agents| == 1)
            && forall r :: r in s.agents <==> s.owner == Some(r)
  {
    InvHolds(Initial(expiresAt), steps);
  }

  /** At most one request is between its claim and its commit or rollback, and none while the token is active. */
  lemma AtMostOneClaimInHand(expiresAt: int, steps: seq<Step>, r: nat, q: nat)
    requires Legal(Initial(expiresAt), steps)
    ensures var s := Exec(Initial(expiresAt), steps);
            (Holds(s, r) && Holds(s, q) ==> r == q) && (s.status == Active ==> !Holds(s, r))
  {
    InvHolds(Initial(expiresAt), steps);
  }

  /** A credential is returned to at most one request, and only for the agent the token names. */
  lemma OnlyTheOwnerIsAnswered(expiresAt: int, steps: seq<Step>, r: nat)
    requires Legal(Initial(expiresAt), steps)
    ensures var s := Exec(Initial(expiresAt), steps);
            r in s.requests && s.requests[r] == Replied ==> s.owner == Some(r) && s.status == Used
  {
    InvHolds(Initial(expiresAt), steps);
  }

  lemma {:induction false} UsedIsFinal(s: System, steps: seq<Step>)
    requires Inv(s) && s.status == Used && Legal(s, steps)
    ensures Exec(s, steps).status == Used && Exec(s, steps).owner == s.owner && Exec(s, steps).agents == s.agents
    decreases steps
  {
    if steps != [] {
      StepKeeps(s, steps[0]);
      UsedIsFinal(Apply(s, steps[0]), steps[1..]);
    }
  }

  // ----- a claim that nobody holds is stuck -----

  /** Nobody is left to finish or release the claim. */
  ghost predicate Abandoned(s: System) {
    s.status == Claiming && s.pending == {} && forall r :: !Holds(s, r)
  }

  lemma {:induction false} AbandonedIsForever(s: System, steps: seq<Step>)
    requires Abandoned(s) && Legal(s, steps)
    ensures Abandoned(Exec(s, steps))
    decreases steps
  {
    if steps != [] {
      var t := Apply(s, steps[0]);
      assert !Holds(s, steps[0].r);
      assert forall r :: Holds(t, r) ==> Holds(s, r);
      AbandonedIsForever(t, steps[1..]);
    }
  }

  /**
   * A claimed token can still be used, or become active again for another try,
   * exactly when its request has neither finished nor crashed or its transaction
   * is still open: a crash, or a lost rollback, blocks the token for good.
   */
  lemma ClaimIsRecoverableIff(s: System)
    requires s.status == Claiming
    ensures (exists steps :: Legal(s, steps) && Exec(s, steps).status != Claiming) <==> !Abandoned(s)
  {
    if Abandoned(s) {
      forall steps | Legal(s, steps) ensures Exec(s, steps).status == Claiming {
        AbandonedIsForever(s, steps);
      }
    } else {
      var steps := WayOut(s);
      assert Legal(s, steps) && Exec(s, steps).status != Claiming;
    }
  }

  lemma WayOut(s: System) returns (steps: seq<Step>)
    requires s.status == Claiming && !Abandoned(s)
    ensures Legal(s, steps) && Exec(s, steps).status != Claiming
  {
    if s.pending != {} {
      var r :| r in s.pending;
      SingleStep(s, Commit(r));
      steps := [Commit(r)];
    } else {
      var r :| Holds(s, r);
      if s.requests[r] == Failing {
        SingleStep(s, Rollback(r));
        steps := [Rollback(r)];
      } else {
        SingleStep(Apply(s, Throw(r)), Rollback(r));
        steps := [Throw(r), Rollback(r)];
        assert steps[1..] == [Rollback(r)];
      }
    }
  }

  lemma SingleStep(s: System, step: Step)
    requires Enabled(s, step)
    ensures Legal(s, [step]) && Exec(s, [step]) == Apply(s, step)
  {
    assert [step][1..] == [];
  }

  /** From the start, a single crash can do it. */
  lemma CrashBlocksTheToken(expiresAt: int, now: int, r: nat)
    requires now < expiresAt
    ensures var steps := [Claim(r, now), Crash(r), Drop(r)];
            Legal(Initial(expiresAt), steps) && Abandoned(Exec(Initial(expiresAt), steps))
  {
    var a := Apply(Initial(expiresAt), Claim(r, now));
    var b := Apply(a, Crash(r));
    SingleStep(b, Drop(r));
    var steps := [Claim(r, now), Crash(r), Drop(r)];
    assert steps[1..] == [Crash(r), Drop(r)] && [Crash(r), Drop(r)][1..] == [Drop(r)];
    assert Exec(a, steps[1..]) == Apply(b, Drop(r));
  }

  // ----- claims and the expiry -----

  /** A fresh request takes the token exactly when it is active and has not expired at that moment; otherwise it changes nothing. */
  lemma ClaimTakesTheTokenIff(s: System, r: nat, now: int)
    requires r !in s.requests
    ensures var t := Apply(s, Claim(r, now));
            && (t.requests[r] == Claimed <==> s.status == Active && now < s.expiresAt)
            && (t.requests[r] == Claimed ==> t.status == Claiming && r in t.pending)
            && (t.requests[r] != Claimed ==> t == s.(requests := s.requests[r := Rejected]))
  {
  }

  /** The run has a claim of this request before the token's expiry. */
  ghost predicate ClaimedInTime(steps: seq<Step>, r: nat, expiresAt: int) {
    exists i :: 0 <= i < |steps| && steps[i].Claim? && steps[i].r == r && steps[i].now < expiresAt
  }

  /** A request that got past its claim, or whose transaction is or was open. */
  predicate WasTaken(s: System, r: nat) {
    || r in s.pending || r in s.agents
    || (r in s.requests && s.requests[r] != Rejected)
  }

  lemma OnlyClaimsTake(s: System, step: Step, r: nat)
    requires Enabled(s, step) && WasTaken(Apply(s, step), r) && !WasTaken(s, r)
    ensures step.Claim? && step.r == r && step.now < s.expiresAt
  {
  }

  /** The expiry of a token never changes. */
  lemma {:induction false} TakenWasClaimedInTime(s: System, steps: seq<Step>, r: nat)
    requires Legal(s, steps) && WasTaken(Exec(s, steps), r) && !WasTaken(s, r)
    ensures ClaimedInTime(steps, r, s.expiresAt)
    decreases steps
  {
    hide Enabled, WasTaken;
    if steps == [] {
      assert false;
    } else {
      var t := Apply(s, steps[0]);
      if WasTaken(t, r) {
        OnlyClaimsTake(s, steps[0], r);
      } else {
        TakenWasClaimedInTime(t, steps[1..], r);
        ExpiryStays(s, steps[0]);
        var i :| 0 <= i < |steps[1..]| && steps[1..][i].Claim? && steps[1..][i].r == r && steps[1..][i].now < s.expiresAt;
        assert steps[i + 1] == steps[1..][i];
      }
    }
  }

  lemma ExpiryStays(s: System, step: Step)
    requires Enabled(s, step)
    ensures Apply(s, step).expiresAt == s.expiresAt
  {
  }

  /**
   * Over every run: whoever was enrolled, and whoever was answered with a
   * credential, had claimed the token before it expired.
   */
  lemma NobodyEnrolsAfterExpiry(expiresAt: int, steps: seq<Step>, r: nat)
    requires Legal(Initial(expiresAt), steps)
    requires var s := Exec(Initial(expiresAt), steps); r in s.agents || (r in s.requests && s.requests[r] == Replied)
    ensures ClaimedInTime(steps, r, expiresAt)
  {
    hide Exec, Legal, ClaimedInTime;
    TakenWasClaimedInTime(Initial(expiresAt), steps, r);
  }

  // ----- commits, rolled back transactions and answers -----

  /** Open and committed transactions belong to requests, and no transaction is both. */
  predicate Bookkept(s: System) {
    s.pending <= s.requests.Keys && s.agents <= s.requests.Keys && s.pending !! s.agents
  }

  /** The request's transaction was rolled back, or there never was one. */
  predicate WithoutTransaction(s: System, r: nat) { r in s.requests && r !in s.pending && r !in s.agents }

  predicate IsReplied(s: System, r: nat) { r in s.requests && s.requests[r] == Replied }

  lemma StepOutcome(s: System, step: Step, r: nat)
    requires Bookkept(s) && Enabled(s, step)
    ensures var t := Apply(s, step);
            && Bookkept(t)
            && (r in t.agents <==> r in s.agents || step == Commit(r))
            && (IsReplied(t, r) <==> IsReplied(s, r) || step == Reply(r))
            && (WithoutTransaction(s, r) || step == Drop(r) ==> WithoutTransaction(t, r))
  {
  }

  lemma {:induction false} OutcomesFrom(s: System, steps: seq<Step>, r: nat)
    requires Bookkept(s) && Legal(s, steps)
    ensures var t := Exec(s, steps);
            && (r in t.agents <==> r in s.agents || Commit(r) in steps)
            && (IsReplied(t, r) <==> IsReplied(s, r) || Reply(r) in steps)
            && (WithoutTransaction(s, r) || Drop(r) in steps ==> WithoutTransaction(t, r))
    decreases steps
  {
    hide Apply, Enabled, Bookkept, WithoutTransaction, IsReplied;
    if steps != [] {
      StepOutcome(s, steps[0], r);
      OutcomesFrom(Apply(s, steps[0]), steps[1..], r);
      assert steps == [steps[0]] + steps[1..];
    }
  }

  /**
   * Over every run: a request's agent is enrolled exactly when its transaction
   * committed, and never when it was rolled back; and the request has its
   * credential exactly when it was answered.
   */
  lemma EnrolledIffCommitted(expiresAt: int, steps: seq<Step>, r: nat)
    requires Legal(Initial(expiresAt), steps)
    ensures var s := Exec(Initial(expiresAt), steps);
            && (r in s.agents <==> Commit(r) in steps)
            && (r in s.requests && s.requests[r] == Replied <==> Reply(r) in steps)
            && (Drop(r) in steps ==> r !in s.agents)
  {
    hide Exec, Legal;
    OutcomesFrom(Initial(expiresAt), steps, r);
  }

  /** A lost rollback blocks the token as a crash does. */
  lemma LostRollbackBlocksTheToken(s: System, r: nat)
    requires Inv(s) && s.status == Claiming && s.pending == {} && r in s.requests && s.requests[r] == Failing
    ensures Abandoned(Apply(s, LoseRollback(r)))
  {
    var t := Apply(s, LoseRollback(r));
    assert Holds(s, r);
    forall q ensures !Holds(t, q) {
      assert Holds(t, q) ==> Holds(s, q);
    }
  }
}

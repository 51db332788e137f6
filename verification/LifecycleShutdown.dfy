/** When does on_deactivate come back?  It joins the health thread while it holds the mutex that the
    health thread needs to honour deactivate_pending_. */
module LifecycleShutdown {
  import opened Lifecycle
  import opened LifecycleSafety

  ghost predicate Follows(run: nat -> State, who: nat -> Actor, choice: nat -> Choice, n: nat) {
    run(n + 1) == Next(run(n), who(n), choice(n))
  }

  /** An infinite run with the actor scheduled and the choice made at every point. */
  ghost predicate Execution(run: nat -> State, who: nat -> Actor, choice: nat -> Choice) {
    forall n: nat :: Follows(run, who, choice, n)
  }

  ghost predicate ScheduledAfter(who: nat -> Actor, a: Actor, n: nat) {
    exists m: nat :: n <= m && who(m) == a
  }

  ghost predicate Fair(who: nat -> Actor, a: Actor) {
    forall n: nat :: ScheduledAfter(who, a, n)
  }

  /** on_deactivate holds the mutex and has not joined yet. */
  predicate Joining(l: LifecyclePc) {
    l.DFlag? || l.DMonitor? || l.DJoin?
  }

  // ------------------------------------------------------------------ it comes back

  predicate Promising(s: State) {
    Inv(s) && !s.terminated && Joining(s.l) && (!s.pending || s.h.HNone?)
  }

  /** Steps the health thread still has to take once monitor_running_ is false. */
  function ToExit(h: HealthPc): nat {
    match h
    case HTry => 4
    case HCheck => 3
    case HSleep => 2
    case HLoop => 1
    case _ => 0
  }

  function Remaining(s: State): nat {
    if s.l.DFlag? then 7 else if s.l.DMonitor? then 6 else ToExit(s.h) + 1
  }

  /** Whose step brings the join closer. */
  function Needed(s: State): Actor {
    if s.l.DJoin? && Alive(s.h) then Health else Lifecycle
  }

  lemma StepTowardsJoin(s: State, a: Actor, c: Choice)
    requires Promising(s)
    ensures var t := Next(s, a, c);
            || (t.l.DMaster? && a.Lifecycle?)
            || (&& Promising(t) && Remaining(t) <= Remaining(s)
                && (Remaining(t) == Remaining(s) ==> Needed(t) == Needed(s))
                && (a == Needed(s) ==> Remaining(t) < Remaining(s)))
  {
    NextKeepsInv(s, a, c);
  }

  /** Up to m, the run is through with the join, has come closer to it, or still needs the same actor. */
  lemma {:induction false} Waits(run: nat -> State, who: nat -> Actor, choice: nat -> Choice, n: nat, m: nat)
    requires Execution(run, who, choice) && Promising(run(n)) && n <= m
    ensures || (exists k: nat :: run(k).l.DMaster?)
            || (exists k: nat :: Promising(run(k)) && Remaining(run(k)) < Remaining(run(n)))
            || (&& Promising(run(m)) && Remaining(run(m)) == Remaining(run(n))
                && Needed(run(m)) == Needed(run(n)))
    decreases m - n
  {
    if n < m {
      Waits(run, who, choice, n, m - 1);
      if Promising(run(m - 1)) && Remaining(run(m - 1)) == Remaining(run(n)) {
        assert Follows(run, who, choice, m - 1);
        StepTowardsJoin(run(m - 1), who(m - 1), choice(m - 1));
      }
    }
  }

  lemma {:induction false} FairnessJoins(run: nat -> State, who: nat -> Actor, choice: nat -> Choice, n: nat)
    requires Execution(run, who, choice) && Fair(who, Lifecycle) && Fair(who, Health)
    requires Promising(run(n))
    ensures exists k: nat :: run(k).l.DMaster?
    decreases Remaining(run(n))
  {
    var a := Needed(run(n));
    assert ScheduledAfter(who, a, n);
    var m: nat :| n <= m && who(m) == a;
    Waits(run, who, choice, n, m);
    if !exists k: nat :: run(k).l.DMaster? {
      if Promising(run(m)) && Remaining(run(m)) == Remaining(run(n)) && Needed(run(m)) == a {
        assert Follows(run, who, choice, m);
        StepTowardsJoin(run(m), who(m), choice(m));
        assert !run(m + 1).l.DMaster?;
        FairnessJoins(run, who, choice, m + 1);
      } else {
        var k: nat :| Promising(run(k)) && Remaining(run(k)) < Remaining(run(n));
        FairnessJoins(run, who, choice, k);
      }
    }
  }

  // ------------------------------------------------------------------ it hangs

  /** on_deactivate waits for the health thread, which waits for on_deactivate's mutex. */
  predicate Hung(s: State) {
    Inv(s) && !s.terminated && s.l.DJoin? && s.h.HWait? && s.owner.ByLifecycle?
  }

  /** No step of any thread resolves it. */
  lemma HungForever(s: State, a: Actor, c: Choice)
    requires Hung(s)
    ensures Hung(Next(s, a, c))
  {
    NextKeepsInv(s, a, c);
  }

  predicate Doomed(s: State) {
    Inv(s) && !s.terminated && Joining(s.l) && s.pending && Alive(s.h)
    && (s.l.DJoin? ==> s.h.HWait?)
  }

  /** First let the health thread reach the mutex, then let on_deactivate reach the join. */
  function Saboteur(s: State): Actor {
    if s.h.HWait? then Lifecycle else Health
  }

  function FirstBranch(s: State): Choice {
    Choice(0, s.cache)
  }

  function ToHang(s: State): nat {
    (if s.h.HWait? then 0 else if s.h.HCheck? then 1 else if s.h.HTry? then 2 else if s.h.HLoop? then 3 else 4)
    + if s.l.DFlag? then 2 else if s.l.DMonitor? then 1 else 0
  }

  lemma StepTowardsHang(s: State)
    requires Doomed(s)
    ensures var t := Next(s, Saboteur(s), FirstBranch(s));
            Doomed(t) && (if Hung(s) then t == s else ToHang(t) < ToHang(s))
    ensures ToHang(s) == 0 <==> Hung(s)
  {
    NextKeepsInv(s, Saboteur(s), FirstBranch(s));
  }

  ghost function Sabotaged(s: State, n: nat): State {
    if n == 0 then s else
      var t := Sabotaged(s, n - 1);
      Next(t, Saboteur(t), FirstBranch(t))
  }

  lemma SabotagedNext(s: State, n: nat)
    ensures Sabotaged(s, n + 1) == Next(Sabotaged(s, n), Saboteur(Sabotaged(s, n)), FirstBranch(Sabotaged(s, n)))
  {
  }

  lemma {:induction false} SabotageApproaches(s: State, n: nat)
    requires Doomed(s)
    ensures Doomed(Sabotaged(s, n))
    ensures Hung(Sabotaged(s, n)) || ToHang(Sabotaged(s, n)) + n <= ToHang(s)
  {
    if n > 0 {
      SabotageApproaches(s, n - 1);
      SabotagedNext(s, n - 1);
      StepTowardsHang(Sabotaged(s, n - 1));
    }
  }

  /** Six steps are enough. */
  lemma SabotageHangs(s: State, n: nat)
    requires Doomed(s)
    ensures Doomed(Sabotaged(s, n))
    ensures n >= 6 ==> Hung(Sabotaged(s, n))
  {
    SabotageApproaches(s, n);
    StepTowardsHang(Sabotaged(s, n));
  }

  /** After the deadlock the scheduler may be as fair as it likes. */
  ghost function HangingSchedule(s: State, n: nat): Actor {
    if n < 6 then Saboteur(Sabotaged(s, n)) else if n % 2 == 0 then Health else Lifecycle
  }

  ghost function HangRun(s: State): nat -> State {
    (n: nat) => Sabotaged(s, n)
  }

  ghost function HangWho(s: State): nat -> Actor {
    (n: nat) => HangingSchedule(s, n)
  }

  ghost function HangChoice(s: State): nat -> Choice {
    (n: nat) => FirstBranch(Sabotaged(s, n))
  }

  /** Neither of the two threads can do anything any more. */
  lemma HungIdle(s: State, a: Actor, c: Choice)
    requires Hung(s) && (a.Lifecycle? || a.Health?)
    ensures Next(s, a, c) == s
  {
  }

  lemma HangStep(s: State, n: nat)
    requires Doomed(s)
    ensures Sabotaged(s, n + 1) == Next(Sabotaged(s, n), HangingSchedule(s, n), FirstBranch(Sabotaged(s, n)))
  {
    SabotagedNext(s, n);
    if n >= 6 {
      SabotageHangs(s, n);
      HungIdle(Sabotaged(s, n), Saboteur(Sabotaged(s, n)), FirstBranch(Sabotaged(s, n)));
      HungIdle(Sabotaged(s, n), HangingSchedule(s, n), FirstBranch(Sabotaged(s, n)));
    }
  }

  lemma HangFollows(s: State, n: nat)
    requires Doomed(s)
    ensures Follows(HangRun(s), HangWho(s), HangChoice(s), n)
    ensures Joining(HangRun(s)(n).l)
  {
    HangStep(s, n);
    SabotageHangs(s, n);
  }

  /** A run from s that is fair to both threads and never gets past the join. */
  lemma HangingExecution(s: State)
    requires Doomed(s)
    ensures Execution(HangRun(s), HangWho(s), HangChoice(s)) && HangRun(s)(0) == s
    ensures Fair(HangWho(s), Lifecycle) && Fair(HangWho(s), Health)
    ensures forall k: nat :: Joining(HangRun(s)(k).l)
  {
    forall n: nat
      ensures Follows(HangRun(s), HangWho(s), HangChoice(s), n) && Joining(HangRun(s)(n).l)
    {
      HangFollows(s, n);
    }
    forall n: nat
      ensures ScheduledAfter(HangWho(s), Health, n) && ScheduledAfter(HangWho(s), Lifecycle, n)
    {
      assert HangWho(s)(2 * n + 6) == Health && HangWho(s)(2 * n + 7) == Lifecycle;
    }
  }

  // ------------------------------------------------------------------ exactly when

  ghost predicate AlwaysJoins(s: State) {
    forall run: nat -> State, who: nat -> Actor, choice: nat -> Choice ::
      Execution(run, who, choice) && run(0) == s && Fair(who, Lifecycle) && Fair(who, Health) ==>
        exists k: nat :: run(k).l.DMaster?
  }

  /** When on_deactivate has obtained the mutex, the join finishes under every fair schedule exactly if
      no deactivation is pending or there is no health thread. */
  lemma ShutdownJoinsIff(s: State)
    requires Inv(s) && !s.terminated && s.l.DFlag?
    ensures AlwaysJoins(s) <==> !s.pending || s.h.HNone?
  {
    if !s.pending || s.h.HNone? {
      forall run: nat -> State, who: nat -> Actor, choice: nat -> Choice
        | Execution(run, who, choice) && run(0) == s && Fair(who, Lifecycle) && Fair(who, Health)
        ensures exists k: nat :: run(k).l.DMaster?
      {
        FairnessJoins(run, who, choice, 0);
      }
    } else {
      HangingExecution(s);
      var run := HangRun(s);
      assert !exists k: nat :: run(k).l.DMaster? by {
        assert forall k: nat :: Joining(run(k).l);
      }
    }
  }
}

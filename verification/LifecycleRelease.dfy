/** The counterpart of the shutdown: a fault is noticed and a pending deactivation is honoured.  If no lifecycle
    call is made and the threads are scheduled fairly, the master is released. */
module LifecycleRelease {
  import opened Lifecycle
  import opened LifecycleSafety
  import opened LifecycleShutdown

  ghost predicate NotStarvedAt(run: nat -> State, who: nat -> Actor, n: nat) {
    run(n).h.HWait? ==> exists m: nat :: n <= m && (!run(m).h.HWait? || (who(m).Health? && run(m).owner.Free?))
  }

  /** When the health thread waits for the mutex, it is sometime scheduled while the mutex is free. */
  ghost predicate NotStarved(run: nat -> State, who: nat -> Actor) {
    forall n: nat :: NotStarvedAt(run, who, n)
  }

  ghost predicate NoLifecycleCall(who: nat -> Actor, n: nat) {
    forall m: nat | n <= m :: !who(m).Lifecycle?
  }

  /** The health thread has released the master and not let the mutex go yet. */
  predicate Releasing(h: HealthPc) {
    h.HFlag? || h.HClear?
  }

  /** While it holds the mutex nobody makes the master active again. */
  predicate ReleaseHolds(s: State) {
    Inv(s) && (Releasing(s.h) ==> !s.masterActive)
  }

  lemma InitReleaseHolds(s: State)
    requires Init(s)
    ensures ReleaseHolds(s)
  {
    InitInv(s);
  }

  lemma LifecycleKeepsMaster(s: State, c: Choice)
    requires Inv(s) && Releasing(s.h)
    ensures Next(s, Lifecycle, c).masterActive == s.masterActive
  {
  }

  lemma IoKeepsMaster(s: State, i: nat, c: Choice)
    ensures Next(s, Io(i), c).masterActive == s.masterActive && Next(s, Io(i), c).h == s.h
  {
  }

  lemma HealthReleases(s: State, c: Choice)
    requires ReleaseHolds(s)
    ensures Releasing(Next(s, Health, c).h) ==> !Next(s, Health, c).masterActive
  {
  }

  lemma ActivateStartsNoRelease(s: State, c: Choice)
    requires !Blocked(s, Lifecycle) && !Deactivating(s.l)
    ensures Releasing(ActivateStep(s, c).h) ==> Releasing(s.h)
  {
  }

  lemma DeactivateStartsNoRelease(s: State)
    requires !Blocked(s, Lifecycle) && Deactivating(s.l)
    ensures Releasing(DeactivateStep(s).h) ==> Releasing(s.h)
  {
  }

  lemma LifecycleStartsNoRelease(s: State, c: Choice)
    ensures Releasing(Next(s, Lifecycle, c).h) ==> Releasing(s.h)
  {
    if !Blocked(s, Lifecycle) {
      if Deactivating(s.l) {
        DeactivateStartsNoRelease(s);
      } else {
        ActivateStartsNoRelease(s, c);
      }
    }
  }

  lemma NextKeepsReleaseHolds(s: State, a: Actor, c: Choice)
    requires ReleaseHolds(s)
    ensures ReleaseHolds(Next(s, a, c))
  {
    NextKeepsInv(s, a, c);
    match a {
      case Lifecycle =>
        LifecycleStartsNoRelease(s, c);
        if Releasing(s.h) {
          LifecycleKeepsMaster(s, c);
        }
      case Health => HealthReleases(s, c);
      case Io(i) => IoKeepsMaster(s, i, c);
    }
  }

  // ------------------------------------------------------------------ progress

  predicate Honouring(s: State) {
    ReleaseHolds(s) && !s.terminated && s.l.LIdle? && s.pending && Alive(s.h)
  }

  /** Steps the health thread takes at most before the master is released. */
  function ToRelease(h: HealthPc): nat {
    match h
    case HUnlock => 10
    case HSleep => 9
    case HLoop => 8
    case HTry => 7
    case HEval => 6
    case HMark => 5
    case HDrop => 4
    case HCheck => 3
    case HWait => 2
    case HRelease => 1
    case _ => 0
  }

  lemma HealthGetsOn(s: State, c: Choice)
    requires Honouring(s) && !Releasing(s.h) && !Blocked(s, Health)
    ensures var t := Next(s, Health, c);
            t.terminated == s.terminated && t.l == s.l && t.pending && Alive(t.h) && ToRelease(t.h) < ToRelease(s.h)
  {
  }

  lemma IoLeavesPending(s: State, i: nat, c: Choice)
    requires s.pending
    ensures var t := Next(s, Io(i), c); t.terminated == s.terminated && t.l == s.l && t.pending && t.h == s.h
  {
  }

  lemma StepTowardsRelease(s: State, a: Actor, c: Choice)
    requires Honouring(s) && !Releasing(s.h) && !a.Lifecycle?
    ensures Honouring(Next(s, a, c)) && ToRelease(Next(s, a, c).h) <= ToRelease(s.h)
    ensures a.Health? && !Blocked(s, a) ==> ToRelease(Next(s, a, c).h) < ToRelease(s.h)
  {
    NextKeepsReleaseHolds(s, a, c);
    match a {
      case Health => if !Blocked(s, a) { HealthGetsOn(s, c); }
      case Io(i) => IoLeavesPending(s, i, c);
    }
  }

  /** Up to m, the master was released, or the health thread still works towards it. */
  lemma {:induction false} KeepsHonouring(run: nat -> State, who: nat -> Actor, choice: nat -> Choice, n: nat, m: nat)
    requires Execution(run, who, choice) && NoLifecycleCall(who, n) && Honouring(run(n)) && n <= m
    ensures || (exists k: nat :: n <= k <= m && Releasing(run(k).h) && !run(k).masterActive)
            || (Honouring(run(m)) && ToRelease(run(m).h) <= ToRelease(run(n).h))
    decreases m - n
  {
    if n < m {
      KeepsHonouring(run, who, choice, n, m - 1);
      if Honouring(run(m - 1)) && ToRelease(run(m - 1).h) <= ToRelease(run(n).h) {
        if Releasing(run(m - 1).h) {
          assert n <= m - 1 <= m && !run(m - 1).masterActive;
        } else {
          assert Follows(run, who, choice, m - 1);
          StepTowardsRelease(run(m - 1), who(m - 1), choice(m - 1));
        }
      }
    }
  }

  ghost predicate ReleasedAfter(run: nat -> State, n: nat) {
    exists k: nat :: n <= k && Releasing(run(k).h) && !run(k).masterActive
  }

  /** The health thread takes a step, or is about to be past its wait. */
  lemma HealthMoves(run: nat -> State, who: nat -> Actor, choice: nat -> Choice, n: nat) returns (m: nat)
    requires Execution(run, who, choice) && NoLifecycleCall(who, n) && Honouring(run(n))
    requires Fair(who, Health) && NotStarved(run, who)
    ensures n <= m
    ensures ReleasedAfter(run, n) || (Honouring(run(m)) && ToRelease(run(m).h) < ToRelease(run(n).h))
  {
    assert ScheduledAfter(who, Health, n);
    m :| n <= m && who(m) == Health;
    KeepsHonouring(run, who, choice, n, m);
    if Honouring(run(m)) && ToRelease(run(m).h) <= ToRelease(run(n).h) && !Releasing(run(m).h) {
      if Blocked(run(m), Health) {
        assert NotStarvedAt(run, who, m);
        var w: nat :| m <= w && (!run(w).h.HWait? || (who(w).Health? && run(w).owner.Free?));
        KeepsHonouring(run, who, choice, m, w);
        m := w;
      }
      if Honouring(run(m)) && !Releasing(run(m).h) && who(m).Health? && !Blocked(run(m), Health) {
        assert Follows(run, who, choice, m);
        StepTowardsRelease(run(m), who(m), choice(m));
        m := m + 1;
      }
    } else if Honouring(run(m)) && Releasing(run(m).h) {
      assert n <= m && !run(m).masterActive;
    }
  }

  lemma {:induction false} HonouringReleases(run: nat -> State, who: nat -> Actor, choice: nat -> Choice, n: nat)
    requires Execution(run, who, choice) && NoLifecycleCall(who, n) && Honouring(run(n))
    requires Fair(who, Health) && NotStarved(run, who)
    ensures ReleasedAfter(run, n)
    decreases ToRelease(run(n).h)
  {
    var m := HealthMoves(run, who, choice, n);
    if !ReleasedAfter(run, n) {
      HonouringReleases(run, who, choice, m);
    }
  }

  /** In every execution from the initial state the master stays released while it is being released. */
  lemma {:induction false} AlwaysReleaseHolds(run: nat -> State, who: nat -> Actor, choice: nat -> Choice, n: nat)
    requires Execution(run, who, choice) && Init(run(0))
    ensures ReleaseHolds(run(n))
  {
    if n == 0 {
      InitReleaseHolds(run(0));
    } else {
      AlwaysReleaseHolds(run, who, choice, n - 1);
      assert Follows(run, who, choice, n - 1);
      NextKeepsReleaseHolds(run(n - 1), who(n - 1), choice(n - 1));
    }
  }

  /** In every execution from the initial state a pending deactivation leads to a released master, unless a
      lifecycle call comes in between. */
  lemma PendingIsHonoured(run: nat -> State, who: nat -> Actor, choice: nat -> Choice, n: nat)
    requires Execution(run, who, choice) && Init(run(0)) && NoLifecycleCall(who, n)
    requires Fair(who, Health) && NotStarved(run, who)
    requires !run(n).terminated && run(n).l.LIdle? && run(n).pending && Alive(run(n).h)
    ensures ReleasedAfter(run, n)
  {
    AlwaysReleaseHolds(run, who, choice, n);
    HonouringReleases(run, who, choice, n);
  }

  // ------------------------------------------------------------------ from the fault on

  /** The cache knows of a fault on which nobody has acted, in a driver with so many I/O threads. */
  predicate Faulty(s: State, threads: nat) {
    && ReleaseHolds(s) && !s.terminated && s.l.LIdle? && s.activated && !s.pending
    && !Healthy(s.cache) && Alive(s.h) && |s.io| == threads
  }

  lemma HealthSeesFault(s: State, threads: nat, c: Choice)
    requires Faulty(s, threads)
    ensures var t := Next(s, Health, c);
            !t.terminated && t.l == s.l && t.activated && Alive(t.h) && |t.io| == threads
  {
  }

  lemma IoSeesFault(s: State, threads: nat, i: nat, c: Choice)
    requires Faulty(s, threads)
    ensures var t := Next(s, Io(i), c);
            !t.terminated && t.l == s.l && t.activated && t.h == s.h && |t.io| == threads
  {
  }

  lemma FaultyStep(s: State, threads: nat, a: Actor, c: Choice)
    requires Faulty(s, threads) && !a.Lifecycle?
    ensures Faulty(Next(s, a, c), threads) || Honouring(Next(s, a, c))
  {
    NextKeepsReleaseHolds(s, a, c);
    LatchStep(s, a, c);
    match a {
      case Health => HealthSeesFault(s, threads, c);
      case Io(i) => IoSeesFault(s, threads, i, c);
    }
  }

  ghost predicate HonouredBetween(run: nat -> State, n: nat, m: nat) {
    exists k: nat :: n <= k <= m && Honouring(run(k))
  }

  lemma {:induction false} StaysFaulty(
    run: nat -> State, who: nat -> Actor, choice: nat -> Choice, threads: nat, n: nat, m: nat)
    requires Execution(run, who, choice) && NoLifecycleCall(who, n) && Faulty(run(n), threads) && n <= m
    ensures Faulty(run(m), threads) || HonouredBetween(run, n, m)
    decreases m - n
  {
    if n < m {
      StaysFaulty(run, who, choice, threads, n, m - 1);
      if Faulty(run(m - 1), threads) {
        assert Follows(run, who, choice, m - 1);
        FaultyStep(run(m - 1), threads, who(m - 1), choice(m - 1));
      } else {
        var k: nat :| n <= k <= m - 1 && Honouring(run(k));
      }
    }
  }

  /** The holder of the mutex is on its way to mark the fault. */
  predicate HealthMarks(s: State) {
    s.owner.ByHealth? && (s.h.HEval? || s.h.HMark?)
  }

  predicate IoMarks(s: State) {
    s.owner.ByIo? && s.owner.thread < |s.io|
    && (s.io[s.owner.thread].ITest? || s.io[s.owner.thread].IHealth? || s.io[s.owner.thread].IMark?)
  }

  predicate Marking(s: State) {
    HealthMarks(s) || IoMarks(s)
  }

  function Holder(s: State): Actor
    requires Marking(s)
  {
    if s.owner.ByHealth? then Health else Io(s.owner.thread)
  }

  function ToMark(s: State): nat
    requires Marking(s)
  {
    if s.owner.ByHealth? then (if s.h.HEval? then 2 else 1)
    else if s.io[s.owner.thread].ITest? then 3
    else if s.io[s.owner.thread].IHealth? then 2
    else 1
  }

  lemma HealthTakes(s: State, threads: nat, c: Choice)
    requires Faulty(s, threads) && s.owner.Free? && !Next(s, Health, c).owner.Free?
    ensures HealthMarks(Next(s, Health, c))
  {
  }

  lemma IoTakes(s: State, threads: nat, i: nat, c: Choice)
    requires Faulty(s, threads) && s.owner.Free? && !Next(s, Io(i), c).owner.Free?
    ensures IoMarks(Next(s, Io(i), c))
  {
  }

  lemma HealthMarksOn(s: State, threads: nat, c: Choice)
    requires Faulty(s, threads) && HealthMarks(s)
    ensures var t := Next(s, Health, c);
            t.pending || (HealthMarks(t) && ToMark(t) < ToMark(s))
  {
  }

  lemma IoMarksOn(s: State, threads: nat, c: Choice)
    requires Faulty(s, threads) && IoMarks(s)
    ensures var t := Next(s, Io(s.owner.thread), c);
            t.pending || (IoMarks(t) && t.owner == s.owner && ToMark(t) < ToMark(s))
  {
  }

  lemma OthersLetMark(s: State, threads: nat, a: Actor, c: Choice)
    requires Faulty(s, threads) && Marking(s) && !a.Lifecycle? && a != Holder(s)
    ensures var t := Next(s, a, c); Marking(t) && t.owner == s.owner && ToMark(t) == ToMark(s)
  {
    match a {
      case Health =>
      case Io(i) =>
    }
  }

  lemma MarkingStep(s: State, threads: nat, a: Actor, c: Choice)
    requires Faulty(s, threads) && Marking(s) && !a.Lifecycle?
    ensures var t := Next(s, a, c);
            Honouring(t)
            || (Faulty(t, threads) && Marking(t) && t.owner == s.owner && ToMark(t) <= ToMark(s)
                && (a == Holder(s) ==> ToMark(t) < ToMark(s)))
  {
    FaultyStep(s, threads, a, c);
    if a != Holder(s) {
      OthersLetMark(s, threads, a, c);
    } else if a.Health? {
      HealthMarksOn(s, threads, c);
    } else {
      IoMarksOn(s, threads, c);
    }
  }

  predicate MarksOn(s: State, t: State, threads: nat)
    requires Marking(s)
  {
    Faulty(t, threads) && Marking(t) && t.owner == s.owner && ToMark(t) <= ToMark(s)
  }

  lemma {:induction false} KeepsMarking(
    run: nat -> State, who: nat -> Actor, choice: nat -> Choice, threads: nat, n: nat, m: nat)
    requires Execution(run, who, choice) && NoLifecycleCall(who, n) && n <= m
    requires Faulty(run(n), threads) && Marking(run(n))
    ensures MarksOn(run(n), run(m), threads) || HonouredBetween(run, n, m)
    decreases m - n
  {
    if n < m {
      KeepsMarking(run, who, choice, threads, n, m - 1);
      if MarksOn(run(n), run(m - 1), threads) {
        assert Follows(run, who, choice, m - 1);
        MarkingStep(run(m - 1), threads, who(m - 1), choice(m - 1));
      } else {
        var k: nat :| n <= k <= m - 1 && Honouring(run(k));
      }
    }
  }

  ghost predicate AllFair(who: nat -> Actor, threads: nat) {
    Fair(who, Health) && forall i: nat | i < threads :: Fair(who, Io(i))
  }

  lemma {:induction false} MarkingHonours(
    run: nat -> State, who: nat -> Actor, choice: nat -> Choice, threads: nat, n: nat) returns (k: nat)
    requires Execution(run, who, choice) && NoLifecycleCall(who, n) && AllFair(who, threads)
    requires Faulty(run(n), threads) && Marking(run(n))
    ensures n <= k && Honouring(run(k))
    decreases ToMark(run(n))
  {
    var a := Holder(run(n));
    assert ScheduledAfter(who, a, n);
    var m: nat :| n <= m && who(m) == a;
    KeepsMarking(run, who, choice, threads, n, m);
    if MarksOn(run(n), run(m), threads) {
      assert Follows(run, who, choice, m);
      MarkingStep(run(m), threads, a, choice(m));
      if Honouring(run(m + 1)) {
        k := m + 1;
      } else {
        k := MarkingHonours(run, who, choice, threads, m + 1);
      }
    } else {
      k :| n <= k <= m && Honouring(run(k));
    }
  }

  ghost predicate TakenAfter(run: nat -> State, n: nat) {
    exists m: nat :: n <= m && run(m).owner.Free? && !run(m + 1).owner.Free?
  }

  /** Somebody's try_lock succeeds again and again. */
  ghost predicate MutexTaken(run: nat -> State) {
    forall n: nat :: TakenAfter(run, n)
  }

  lemma FaultIsMarked(run: nat -> State, who: nat -> Actor, choice: nat -> Choice, threads: nat, n: nat)
    returns (k: nat)
    requires Execution(run, who, choice) && NoLifecycleCall(who, n) && AllFair(who, threads) && MutexTaken(run)
    requires Faulty(run(n), threads)
    ensures n <= k && Honouring(run(k))
  {
    assert TakenAfter(run, n);
    var m: nat :| n <= m && run(m).owner.Free? && !run(m + 1).owner.Free?;
    StaysFaulty(run, who, choice, threads, n, m);
    if Faulty(run(m), threads) {
      assert Follows(run, who, choice, m);
      FaultyStep(run(m), threads, who(m), choice(m));
      if Honouring(run(m + 1)) {
        k := m + 1;
      } else {
        match who(m) {
          case Health => HealthTakes(run(m), threads, choice(m));
          case Io(i) => IoTakes(run(m), threads, i, choice(m));
        }
        k := MarkingHonours(run, who, choice, threads, m + 1);
      }
    } else {
      k :| n <= k <= m && Honouring(run(k));
    }
  }

  /** In every execution from the initial state an activated driver whose cache knows of a fault releases the
      master, unless a lifecycle call comes in between: if the health and I/O threads are scheduled fairly,
      some try_lock succeeds again and again, and the blocking lock is not passed over for ever. */
  lemma FaultIsReleased(run: nat -> State, who: nat -> Actor, choice: nat -> Choice, n: nat)
    requires Execution(run, who, choice) && Init(run(0)) && NoLifecycleCall(who, n)
    requires AllFair(who, |run(n).io|) && MutexTaken(run) && NotStarved(run, who)
    requires !run(n).terminated && run(n).l.LIdle? && run(n).activated && Alive(run(n).h) && !Healthy(run(n).cache)
    ensures ReleasedAfter(run, n)
  {
    AlwaysReleaseHolds(run, who, choice, n);
    var k := n;
    if !run(n).pending {
      k := FaultIsMarked(run, who, choice, |run(n).io|, n);
    }
    HonouringReleases(run, who, choice, k);
    var r: nat :| k <= r && Releasing(run(r).h) && !run(r).masterActive;
  }
}

/** The two failures of the driver's lifecycle are reachable: runs from the initial state, over a bus that
    comes up and later fails, to a shutdown that need not end and to the end of the process. */
module LifecycleReach {
  import opened Lifecycle
  import opened LifecycleSafety
  import opened LifecycleShutdown

  ghost predicate Reaches(s: State, t: State) {
    exists states, moves :: Run(states, moves) && states[0] == s && states[|moves|] == t
  }

  lemma Reached(states: seq<State>, moves: seq<Move>)
    requires Run(states, moves)
    ensures Reaches(states[0], states[|moves|])
  {
  }

  lemma ReachesOn(s: State, t: State, u: State)
    requires Reaches(s, t) && Reaches(t, u)
    ensures Reaches(s, u)
  {
    var first: seq<State>, go: seq<Move> :| Run(first, go) && first[0] == s && first[|go|] == t;
    var rest: seq<State>, on: seq<Move> :| Run(rest, on) && rest[0] == t && rest[|on|] == u;
    var states: seq<State>, moves: seq<Move> := first + rest[1..], go + on;
    forall k | 0 <= k < |moves| ensures states[k + 1] == Next(states[k], moves[k].actor, moves[k].choice) {
      if k >= |go| {
        assert states[k] == rest[k - |go|] && states[k + 1] == rest[k + 1 - |go|];
      }
    }
    assert states[|moves|] == u;
    Reached(states, moves);
  }

  lemma ReachesNext(s: State, a: Actor, c: Choice)
    ensures Reaches(s, Next(s, a, c))
  {
    Reached([s, Next(s, a, c)], [Move(a, c)]);
  }

  /** Every reached state satisfies the invariants. */
  lemma ReachedInv(s: State, t: State)
    requires Inv(s) && Reaches(s, t)
    ensures Inv(t)
  {
    var states, moves :| Run(states, moves) && states[0] == s && states[|moves|] == t;
    RunKeepsInv(states, moves, |moves|);
  }

  // ------------------------------------------------------------------ bringing the bus up

  /** The driver is not activated and no thread is inside a critical section. */
  predicate Down(s: State) {
    !s.terminated && s.owner.Free? && !s.activated && s.l.LIdle?
  }

  function StartUp(s: State, up: BusCache): seq<State> {
    var locked := s.(owner := ByLifecycle);
    var active := locked.(masterActive := true);
    var started := Received(active, Choice(2, up));
    var reading := started.(activated := true);
    var read := Received(reading, Choice(2, up));
    [s, s.(l := ALock), locked.(l := ATest), locked.(l := AMaster), active.(l := AStartup),
     started.(l := AEnable), reading.(l := ARead), read.(l := AMonitor), read.(monitor := true, l := ASpawn)]
  }

  function StartUpMove(k: nat, up: BusCache): Move {
    Move(Lifecycle, Choice(if k == 0 then 1 else 2, up))
  }

  lemma StartUpLocks(s: State, up: BusCache, k: nat)
    requires Down(s) && k < 4
    ensures StartUp(s, up)[k + 1] == Next(StartUp(s, up)[k], Lifecycle, StartUpMove(k, up).choice)
  {
  }

  lemma StartUpCycles(s: State, up: BusCache, k: nat)
    requires Down(s) && 4 <= k < 8
    ensures StartUp(s, up)[k + 1] == Next(StartUp(s, up)[k], Lifecycle, StartUpMove(k, up).choice)
  {
  }

  lemma StartUpStep(s: State, up: BusCache, k: nat)
    requires Down(s) && k < 8
    ensures StartUp(s, up)[k + 1] == Next(StartUp(s, up)[k], Lifecycle, StartUpMove(k, up).choice)
  {
    if k < 4 {
      StartUpLocks(s, up, k);
    } else {
      StartUpCycles(s, up, k);
    }
  }

  /** on_activate up to the start of the health thread. */
  function AboutToSpawn(s: State, up: BusCache): State {
    Received(Received(s, Choice(2, up)), Choice(2, up)).(
      owner := ByLifecycle, activated := true, masterActive := true, monitor := true, l := ASpawn)
  }

  lemma StartUpReaches(s: State, up: BusCache)
    requires Down(s)
    ensures Reaches(s, AboutToSpawn(s, up))
  {
    var states, moves := StartUp(s, up), seq(8, k requires 0 <= k < 8 => StartUpMove(k, up));
    forall k: nat | k < 8 ensures states[k + 1] == Next(states[k], moves[k].actor, moves[k].choice) {
      StartUpStep(s, up, k);
    }
    Reached(states, moves);
    assert states[8] == AboutToSpawn(s, up);
  }

  /** Activated, healthy so far, and nobody in a critical section. */
  predicate Running(s: State) {
    && !s.terminated && s.owner.Free? && s.activated && s.masterActive && s.monitor && !s.pending
    && s.l.LIdle? && s.h.HLoop? && |s.io| > 0 && s.io[0].IIdle?
  }

  lemma ActivationReaches(s: State, up: BusCache) returns (t: State)
    requires Init(s) && |s.io| > 0
    ensures Reaches(s, t) && Running(t) && t.cache == up && t.counter == 2
  {
    StartUpReaches(s, up);
    var spawning := AboutToSpawn(s, up);
    var spawned := spawning.(h := HLoop, l := AUnlock);
    ReachesNext(spawning, Lifecycle, Choice(0, up));
    ReachesOn(s, spawning, spawned);
    t := spawned.(owner := Free, l := LIdle);
    ReachesNext(spawned, Lifecycle, Choice(0, up));
    ReachesOn(s, spawned, t);
  }

  // ------------------------------------------------------------------ reading until the bus fails

  function IoAt(s: State, owner: Owner, pc: IoPc): State
    requires |s.io| > 0
  {
    s.(owner := owner, io := s.io[0 := pc])
  }

  function HealthyRead(s: State, report: BusCache): seq<State>
    requires |s.io| > 0
  {
    [s, IoAt(s, Free, ITry(false)), IoAt(s, ByIo(0), ITest(false)), IoAt(s, ByIo(0), IHealth(false)),
     IoAt(s, ByIo(0), IBus(false)), IoAt(Received(s, Choice(2, report)), ByIo(0), IUnlock),
     Received(s, Choice(2, report))]
  }

  lemma HealthyReadStep(s: State, report: BusCache, k: nat)
    requires Running(s) && Healthy(s.cache) && k < 6
    ensures HealthyRead(s, report)[k + 1] == Next(HealthyRead(s, report)[k], Io(0), Choice(2, report))
  {
    assert s.io[0 := IIdle] == s.io;
    var io, at := HealthyRead(s, report)[k].io, HealthyRead(s, report)[k + 1].io[0];
    assert io[0 := at] == s.io[0 := at];
  }

  lemma HealthyReadReaches(s: State, report: BusCache)
    requires Running(s) && Healthy(s.cache)
    ensures Reaches(s, Received(s, Choice(2, report))) && Running(Received(s, Choice(2, report)))
  {
    var states, moves := HealthyRead(s, report), seq(6, _ => Move(Io(0), Choice(2, report)));
    forall k: nat | k < 6 ensures states[k + 1] == Next(states[k], moves[k].actor, moves[k].choice) {
      HealthyReadStep(s, report, k);
    }
    Reached(states, moves);
  }

  /** Reads go well until the tenth bus cycle asks for the state again. */
  lemma {:induction false} ReadsReachReport(s: State, report: BusCache) returns (t: State)
    requires Running(s) && Healthy(s.cache)
    ensures Reaches(s, t) && Running(t) && t.cache == report
    decreases (CHECK_STATE_FREQUENCY - s.counter % CHECK_STATE_FREQUENCY) % CHECK_STATE_FREQUENCY
  {
    HealthyReadReaches(s, report);
    t := Received(s, Choice(2, report));
    if s.counter % CHECK_STATE_FREQUENCY != 0 {
      var u := t;
      t := ReadsReachReport(u, report);
      ReachesOn(s, u, t);
    }
  }

  /** The first state of a run that knows of the fault, before any other thread has acted on it. */
  predicate FaultSeen(s: State) {
    Running(s) && Inv(s) && !Healthy(s.cache)
  }

  /** From the initial state over an activation on a healthy bus to the first cycle that notices its fault. */
  lemma FaultReachable(s: State, up: BusCache, down: BusCache) returns (t: State)
    requires Init(s) && |s.io| > 0 && Healthy(up) && !Healthy(down)
    ensures Reaches(s, t) && FaultSeen(t) && t.cache == down
  {
    var active := ActivationReaches(s, up);
    t := ReadsReachReport(active, down);
    ReachesOn(s, active, t);
    InitInv(s);
    ReachedInv(s, t);
  }

  // ------------------------------------------------------------------ the shutdown that need not end

  /** One read on the failed bus, up to its mark and out again. */
  function FaultyRead(s: State): seq<State>
    requires |s.io| > 0
  {
    [s, IoAt(s, Free, ITry(true)), IoAt(s, ByIo(0), ITest(true)), IoAt(s, ByIo(0), IHealth(true)),
     IoAt(s, ByIo(0), IMark), IoAt(s, ByIo(0), IUnlock).(pending := true), s.(pending := true)]
  }

  lemma FaultyReadStep(s: State, k: nat)
    requires FaultSeen(s) && k < 6
    ensures FaultyRead(s)[k + 1] == Next(FaultyRead(s)[k], Io(0), Choice(1, s.cache))
  {
    assert s.io[0 := IIdle] == s.io;
    var io, at := FaultyRead(s)[k].io, FaultyRead(s)[k + 1].io[0];
    assert io[0 := at] == s.io[0 := at];
  }

  /** on_deactivate called next: it has obtained the mutex, and deactivation is pending. */
  function StoppedAfterFault(s: State): State {
    s.(pending := true, owner := ByLifecycle, l := DFlag)
  }

  /** A single access to the failed bus, followed by on_deactivate before the health thread gets to act. */
  lemma FaultThenStopReaches(s: State)
    requires FaultSeen(s)
    ensures Reaches(s, StoppedAfterFault(s))
  {
    var states, moves := FaultyRead(s), seq(6, _ => Move(Io(0), Choice(1, s.cache)));
    forall k: nat | k < 6 ensures states[k + 1] == Next(states[k], moves[k].actor, moves[k].choice) {
      FaultyReadStep(s, k);
    }
    Reached(states, moves);
    var marked := s.(pending := true);
    ReachesNext(marked, Lifecycle, Choice(2, s.cache));
    var called := marked.(l := DLock);
    ReachesOn(s, marked, called);
    ReachesNext(called, Lifecycle, Choice(0, s.cache));
    ReachesOn(s, called, StoppedAfterFault(s));
  }

  /** From the initial state, a bus that comes up with any healthy report and later fails with any
      unhealthy one leads to a shutdown that holds the mutex and need not end. */
  lemma FaultThenStopMayHang(s: State, up: BusCache, down: BusCache) returns (t: State)
    requires Init(s) && |s.io| > 0 && Healthy(up) && !Healthy(down)
    ensures Reaches(s, t) && t.l.DFlag? && t.cache == down && !AlwaysJoins(t)
  {
    var fault := FaultReachable(s, up, down);
    FaultThenStopReaches(fault);
    t := StoppedAfterFault(fault);
    ReachesOn(s, fault, t);
    InitInv(s);
    ReachedInv(s, t);
    ShutdownJoinsIff(t);
  }

  // ------------------------------------------------------------------ the activation that ends the process

  /** The health thread notices the fault and releases the master by itself. */
  function SelfRelease(s: State): seq<State> {
    var held, marked := s.(owner := ByHealth), s.(pending := true);
    var locked := marked.(owner := ByHealth);
    var released := locked.(masterActive := false);
    var off := released.(activated := false);
    var clear := off.(pending := false);
    [s, s.(h := HTry), held.(h := HEval), held.(h := HMark), locked.(h := HDrop), marked.(h := HCheck),
     marked.(h := HWait), locked.(h := HRelease), released.(h := HFlag), off.(h := HClear), clear.(h := HUnlock),
     clear.(owner := Free, h := HSleep)]
  }

  lemma SelfReleaseStep(s: State, k: nat)
    requires FaultSeen(s) && k < 11
    ensures SelfRelease(s)[k + 1] == Next(SelfRelease(s)[k], Health, Choice(1, s.cache))
  {
  }

  function SelfReleased(s: State): State {
    s.(activated := false, masterActive := false, pending := false, owner := Free, h := HSleep)
  }

  lemma SelfReleaseReaches(s: State)
    requires FaultSeen(s)
    ensures Reaches(s, SelfReleased(s))
  {
    var states, moves := SelfRelease(s), seq(11, _ => Move(Health, Choice(1, s.cache)));
    forall k: nat | k < 11 ensures states[k + 1] == Next(states[k], moves[k].actor, moves[k].choice) {
      SelfReleaseStep(s, k);
    }
    Reached(states, moves);
    assert states[11] == SelfReleased(s);
  }

  /** From the initial state: the bus fails, the health thread releases the master, the bus comes back with
      any report, on_activate is called again without an on_deactivate, and the process ends. */
  lemma ReactivationMayTerminate(s: State, up: BusCache, down: BusCache, back: BusCache) returns (t: State)
    requires Init(s) && |s.io| > 0 && Healthy(up) && !Healthy(down)
    ensures Reaches(s, t) && t.terminated
  {
    var fault := FaultReachable(s, up, down);
    SelfReleaseReaches(fault);
    var off := SelfReleased(fault);
    ReachesOn(s, fault, off);
    StartUpReaches(off, back);
    var spawning := AboutToSpawn(off, back);
    ReachesOn(s, off, spawning);
    t := spawning.(terminated := true);
    ReachesNext(spawning, Lifecycle, Choice(0, back));
    ReachesOn(s, spawning, t);
  }
}

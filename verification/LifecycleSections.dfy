/** Every critical section of the lifecycle is atomic: what it does is decided by the state in which it got the
    mutex, whatever the other threads do meanwhile; and a deactivation is only ever requested on a fault. */
module LifecycleSections {
  import opened Lifecycle
  import opened LifecycleSafety

  // ------------------------------------------------------------------ requests are justified

  /** The link is down, no slave responds, or none is operational. */
  predicate Faulty(c: BusCache) {
    !c.linkUp || c.slavesResponding == 0 || true !in c.operational
  }

  lemma {:induction false} AnyIff(operational: seq<bool>)
    ensures AnyOperational(operational) <==> true in operational
  {
    if |operational| > 0 {
      AnyIff(operational[1..]);
      assert operational == [operational[0]] + operational[1..];
    }
  }

  lemma FaultyIff(c: BusCache)
    ensures Faulty(c) <==> !Healthy(c)
  {
    AnyIff(c.operational);
  }

  /** Whoever is about to request a deactivation has found an activated driver on an unhealthy bus. */
  predicate MarksFault(s: State) {
    && (s.h.HMark? ==> s.activated && Faulty(s.cache))
    && (s.owner.ByIo? && s.owner.thread < |s.io| && s.io[s.owner.thread].IMark? ==> s.activated && Faulty(s.cache))
  }

  /** What ec_mutex_ protects. */
  datatype Shared = Shared(
    activated: bool, pending: bool, monitor: bool, masterActive: bool, cache: BusCache, counter: nat)

  function SharedOf(s: State): Shared {
    Shared(s.activated, s.pending, s.monitor, s.masterActive, s.cache, s.counter)
  }

  /** The holder's program counter is the same. */
  predicate SamePlace(s: State, t: State) {
    match s.owner
    case Free => true
    case ByLifecycle => t.l == s.l
    case ByHealth => t.h == s.h
    case ByIo(i) => i < |s.io| == |t.io| && t.io[i] == s.io[i]
  }

  predicate Untouched(s: State, t: State) {
    t.owner == s.owner && SharedOf(t) == SharedOf(s) && SamePlace(s, t) && t.terminated == s.terminated
  }

  lemma LifecycleWaits(s: State, c: Choice)
    requires Inv(s) && !s.owner.Free? && !s.owner.ByLifecycle?
    ensures Untouched(s, Next(s, Lifecycle, c)) && EventOf(s, Lifecycle).Silent?
  {
  }

  lemma HealthWaits(s: State, c: Choice)
    requires Inv(s) && !s.owner.Free? && !s.owner.ByHealth?
    ensures Untouched(s, Next(s, Health, c)) && EventOf(s, Health).Silent?
  {
  }

  lemma IoWaits(s: State, i: nat, c: Choice)
    requires Inv(s) && !s.owner.Free? && s.owner != ByIo(i)
    ensures Untouched(s, Next(s, Io(i), c)) && EventOf(s, Io(i)).Silent?
  {
    if i < |s.io| {
      assert !IoHolds(s.io[i]);
    }
  }

  /** While the mutex is held nobody else changes what it protects. */
  lemma OthersWait(s: State, a: Actor, c: Choice)
    requires Inv(s) && !s.owner.Free? && s.owner != OwnerOf(a)
    ensures Untouched(s, Next(s, a, c)) && EventOf(s, a).Silent?
  {
    match a {
      case Lifecycle => LifecycleWaits(s, c);
      case Health => HealthWaits(s, c);
      case Io(i) => IoWaits(s, i, c);
    }
  }

  lemma HealthMarksFault(s: State, c: Choice)
    requires Inv(s) && MarksFault(s)
    ensures MarksFault(Next(s, Health, c))
    ensures !s.pending && Next(s, Health, c).pending ==> s.activated && Faulty(s.cache)
  {
    FaultyIff(s.cache);
  }

  lemma IoMarksFault(s: State, i: nat, c: Choice)
    requires Inv(s) && MarksFault(s) && (s.owner.Free? || s.owner == ByIo(i))
    ensures MarksFault(Next(s, Io(i), c))
    ensures !s.pending && Next(s, Io(i), c).pending ==> s.activated && Faulty(s.cache)
  {
    FaultyIff(s.cache);
  }

  lemma LifecycleMarksNothing(s: State, c: Choice)
    requires Inv(s) && MarksFault(s) && (s.owner.Free? || s.owner.ByLifecycle?)
    ensures MarksFault(Next(s, Lifecycle, c)) && Next(s, Lifecycle, c).pending == s.pending
  {
    FaultyIff(s.cache);
  }

  lemma MarksFaultStep(s: State, a: Actor, c: Choice)
    requires Inv(s) && MarksFault(s)
    ensures MarksFault(Next(s, a, c))
    ensures !s.pending && Next(s, a, c).pending ==> s.activated && Faulty(s.cache)
  {
    if !s.owner.Free? && s.owner != OwnerOf(a) && !a.Health? {
      OthersWait(s, a, c);
    } else {
      match a {
        case Lifecycle => LifecycleMarksNothing(s, c);
        case Health => HealthMarksFault(s, c);
        case Io(i) => IoMarksFault(s, i, c);
      }
    }
  }

  lemma {:induction false} RunMarksFault(states: seq<State>, moves: seq<Move>, k: nat)
    requires Run(states, moves) && Init(states[0]) && k < |states|
    ensures Inv(states[k]) && MarksFault(states[k])
  {
    InitInv(states[0]);
    RunKeepsInv(states, moves, k);
    if k > 0 {
      RunMarksFault(states, moves, k - 1);
      MarksFaultStep(states[k - 1], moves[k - 1].actor, moves[k - 1].choice);
    }
  }

  /** In every run deactivate_pending_ is only set on an activated driver whose cached bus is unhealthy. */
  lemma RequestedOnlyOnFault(states: seq<State>, moves: seq<Move>, k: nat)
    requires Run(states, moves) && Init(states[0]) && k < |moves|
    ensures !states[k].pending && states[k + 1].pending ==> states[k].activated && Faulty(states[k].cache)
  {
    RunMarksFault(states, moves, k);
    MarksFaultStep(states[k], moves[k].actor, moves[k].choice);
  }

  lemma {:induction false} LastRequest(states: seq<State>, k: nat) returns (j: nat)
    requires k < |states| && !states[0].pending && states[k].pending
    ensures j < k && !states[j].pending && forall m | j < m <= k :: states[m].pending
  {
    if states[k - 1].pending {
      j := LastRequest(states, k - 1);
    } else {
      j := k - 1;
    }
  }

  /** In every run the health thread only releases a master for a request that was made on a fault and not
      cleared since. */
  lemma ReleasedOnlyForFault(states: seq<State>, moves: seq<Move>, k: nat) returns (j: nat)
    requires Run(states, moves) && Init(states[0]) && k < |moves|
    requires moves[k].actor.Health? && states[k].masterActive && !states[k + 1].masterActive
    ensures j < k && !states[j].pending && states[j].activated && Faulty(states[j].cache)
    ensures forall m | j < m <= k :: states[m].pending
  {
    RunMarksFault(states, moves, k);
    assert states[k].h.HRelease?;
    j := LastRequest(states, k);
    RequestedOnlyOnFault(states, moves, j);
  }

  // ------------------------------------------------------------------ sections

  /** The bus events of steps m to n - 1. */
  function Events(states: seq<State>, moves: seq<Move>, m: nat, n: nat): seq<Event>
    requires m <= n <= |moves| <= |states|
  {
    if n == m then []
    else
      var e := EventOf(states[n - 1], moves[n - 1].actor);
      Events(states, moves, m, n - 1) + if e.Silent? then [] else [e]
  }

  /** In a run from the initial state a holds the mutex from step m + 1 until step n. */
  ghost predicate Section(states: seq<State>, moves: seq<Move>, a: Actor, m: nat, n: nat) {
    && Run(states, moves) && Init(states[0]) && m + 1 < n <= |moves|
    && states[m].owner.Free? && states[n].owner.Free?
    && forall k | m < k < n :: states[k].owner == OwnerOf(a)
  }

  /** Getting the mutex changes nothing else that others see. */
  lemma Acquires(s: State, a: Actor, c: Choice)
    requires Inv(s) && s.owner.Free? && !Next(s, a, c).owner.Free?
    ensures var t := Next(s, a, c);
            && t.owner == OwnerOf(a) && SharedOf(t) == SharedOf(s) && EventOf(s, a).Silent?
            && match a
               case Lifecycle => (s.l.ALock? && t.l.ATest?) || (s.l.DLock? && t.l.DFlag?)
               case Health => (s.h.HTry? && t.h.HEval?) || (s.h.HWait? && t.h.HRelease?)
               case Io(i) => i < |s.io| == |t.io| && s.io[i].ITry? && t.io[i] == ITest(s.io[i].write)
  {
  }

  lemma SectionStarts(states: seq<State>, moves: seq<Move>, a: Actor, m: nat, n: nat)
    requires Section(states, moves, a, m, n)
    ensures moves[m].actor == a && Inv(states[m]) && states[m + 1] == Next(states[m], a, moves[m].choice)
    ensures SharedOf(states[m + 1]) == SharedOf(states[m]) && Events(states, moves, m, m + 1) == []
  {
    RunMarksFault(states, moves, m);
    assert states[m + 1].owner == OwnerOf(a);
    Acquires(states[m], moves[m].actor, moves[m].choice);
    assert Events(states, moves, m, m) == [];
  }

  function Extended(done: seq<Event>, e: Event): seq<Event> {
    done + if e.Silent? then [] else [e]
  }

  /** What a read or write that gets the mutex in s comes to. */
  predicate IoDone(write: bool, s: State, after: Shared, done: seq<Event>) {
    && done == (if s.activated && !Faulty(s.cache) then [if write then BusWrite else BusRead] else [])
    && after.pending == (s.pending || (s.activated && Faulty(s.cache)))
    && after.activated == s.activated && after.monitor == s.monitor && after.masterActive == s.masterActive
    && var fetches := s.activated && !Faulty(s.cache) && !write;
       && after.counter == s.counter + (if fetches then 1 else 0)
       && (!fetches ==> after.cache == s.cache)
  }

  predicate IoPhase(i: nat, s: State, x: State, done: seq<Event>) {
    && i < |s.io| && i < |x.io| && s.io[i].ITry?
    && var w := s.io[i].write;
       match x.io[i]
       case ITest(v) => v == w && SharedOf(x) == SharedOf(s) && done == []
       case IHealth(v) => v == w && SharedOf(x) == SharedOf(s) && done == [] && s.activated
       case IMark => SharedOf(x) == SharedOf(s) && done == [] && s.activated && Faulty(s.cache)
       case IBus(v) => v == w && SharedOf(x) == SharedOf(s) && done == [] && s.activated && !Faulty(s.cache)
       case IUnlock => IoDone(w, s, SharedOf(x), done)
       case _ => false
  }

  predicate CheckDone(s: State, after: Shared, done: seq<Event>) {
    done == [] && after == SharedOf(s).(pending := s.pending || (s.activated && Faulty(s.cache)))
  }

  predicate CheckPhase(s: State, x: State, done: seq<Event>) {
    match x.h
    case HEval => SharedOf(x) == SharedOf(s) && done == []
    case HMark => SharedOf(x) == SharedOf(s) && done == [] && s.activated && Faulty(s.cache)
    case HDrop => CheckDone(s, SharedOf(x), done)
    case _ => false
  }

  predicate ReleaseDone(s: State, after: Shared, done: seq<Event>) {
    done == [] && after == SharedOf(s).(activated := false, pending := false, masterActive := false)
  }

  predicate ReleasePhase(s: State, x: State, done: seq<Event>) {
    && done == []
    && match x.h
       case HRelease => SharedOf(x) == SharedOf(s)
       case HFlag => SharedOf(x) == SharedOf(s).(masterActive := false)
       case HClear => SharedOf(x) == SharedOf(s).(masterActive := false, activated := false)
       case HUnlock => ReleaseDone(s, SharedOf(x), done)
       case _ => false
  }

  predicate StopDone(s: State, after: Shared, done: seq<Event>) {
    done == [] && after == SharedOf(s).(activated := false, monitor := false, masterActive := false)
  }

  predicate StopPhase(s: State, x: State, done: seq<Event>) {
    && done == []
    && match x.l
       case DFlag => SharedOf(x) == SharedOf(s)
       case DMonitor => SharedOf(x) == SharedOf(s).(activated := false)
       case DJoin => SharedOf(x) == SharedOf(s).(activated := false, monitor := false)
       case DMaster => SharedOf(x) == SharedOf(s).(activated := false, monitor := false)
       case DUnlock => StopDone(s, SharedOf(x), done)
       case _ => false
  }

  predicate AllUpdates(done: seq<Event>) {
    forall i | 0 <= i < |done| :: done[i].BusUpdate?
  }

  /** Some start-up cycles, then one read. */
  predicate UpdatesThenRead(done: seq<Event>) {
    |done| >= 2 && AllUpdates(done[..|done| - 1]) && done[|done| - 1].BusRead?
  }

  /** A second activation changes nothing.  One that succeeds has the master active and the monitor running, after
      some start-up cycles and a read; one that fails has at most activated the master and run start-up cycles. */
  predicate StartDone(s: State, after: Shared, done: seq<Event>) {
    if s.activated then done == [] && after == SharedOf(s)
    else
      && after.pending == s.pending && after.counter == s.counter + |done|
      && (after.activated ==> after.masterActive && after.monitor && UpdatesThenRead(done))
      && (!after.activated ==>
            && after.monitor == s.monitor && AllUpdates(done)
            && (s.masterActive || |done| > 0 ==> after.masterActive))
      && (|done| == 0 ==> after.cache == s.cache)
  }

  predicate StartedUp(s: State, x: State, done: seq<Event>) {
    && !s.activated && x.pending == s.pending && x.counter == s.counter + |done| && x.masterActive
    && (|done| == 0 ==> x.cache == s.cache)
  }

  predicate StartPhase(s: State, x: State, done: seq<Event>) {
    match x.l
    case ATest => SharedOf(x) == SharedOf(s) && done == []
    case AMaster => SharedOf(x) == SharedOf(s) && done == [] && !s.activated
    case AStartup => StartedUp(s, x, done) && !x.activated && x.monitor == s.monitor && AllUpdates(done)
    case AEnable => StartedUp(s, x, done) && !x.activated && x.monitor == s.monitor && AllUpdates(done) && |done| > 0
    case ARead => StartedUp(s, x, done) && x.activated && x.monitor == s.monitor && AllUpdates(done) && |done| > 0
    case AMonitor => StartedUp(s, x, done) && x.activated && UpdatesThenRead(done)
    case ASpawn => StartedUp(s, x, done) && x.activated && x.monitor && UpdatesThenRead(done)
    case AUnlock => StartDone(s, SharedOf(x), done)
    case _ => false
  }

  /** How far a section that started in s has come in x, with these events on the bus. */
  ghost predicate Phase(a: Actor, s: State, x: State, done: seq<Event>) {
    match a
    case Io(i) => IoPhase(i, s, x, done)
    case Health => if s.h.HTry? then CheckPhase(s, x, done) else ReleasePhase(s, x, done)
    case Lifecycle => if s.l.ALock? then StartPhase(s, x, done) else StopPhase(s, x, done)
  }

  // ------------------------------------------------------------------ read and write

  lemma IoPhaseBus(i: nat, s: State, x: State, done: seq<Event>, c: Choice)
    requires IoPhase(i, s, x, done) && !x.terminated && x.io[i].IBus?
    ensures IoPhase(i, s, Next(x, Io(i), c), Extended(done, EventOf(x, Io(i))))
  {
    FaultyIff(x.cache);
    assert done + [EventOf(x, Io(i))] == [EventOf(x, Io(i))];
  }

  lemma IoPhaseMark(i: nat, s: State, x: State, done: seq<Event>, c: Choice)
    requires IoPhase(i, s, x, done) && !x.terminated && x.io[i].IMark?
    ensures IoPhase(i, s, Next(x, Io(i), c), Extended(done, EventOf(x, Io(i))))
  {
    FaultyIff(x.cache);
  }

  lemma IoPhaseTests(i: nat, s: State, x: State, done: seq<Event>, c: Choice)
    requires IoPhase(i, s, x, done) && !x.terminated && (x.io[i].ITest? || x.io[i].IHealth?)
    ensures IoPhase(i, s, Next(x, Io(i), c), Extended(done, EventOf(x, Io(i))))
  {
    FaultyIff(x.cache);
  }

  lemma IoPhaseStep(i: nat, s: State, x: State, done: seq<Event>, c: Choice)
    requires IoPhase(i, s, x, done) && !x.terminated
    ensures var y, more := Next(x, Io(i), c), Extended(done, EventOf(x, Io(i)));
            if x.io[i].IUnlock? then more == done && SharedOf(y) == SharedOf(x) else IoPhase(i, s, y, more)
  {
    if x.io[i].IBus? {
      IoPhaseBus(i, s, x, done, c);
    } else if x.io[i].IMark? {
      IoPhaseMark(i, s, x, done, c);
    } else if x.io[i].ITest? || x.io[i].IHealth? {
      IoPhaseTests(i, s, x, done, c);
    }
  }

  // ------------------------------------------------------------------ the health thread

  lemma CheckPhaseStep(s: State, x: State, done: seq<Event>, c: Choice)
    requires CheckPhase(s, x, done) && !x.terminated
    ensures var y, more := Next(x, Health, c), Extended(done, EventOf(x, Health));
            if x.h.HDrop? then more == done && SharedOf(y) == SharedOf(x) else CheckPhase(s, y, more)
  {
    FaultyIff(x.cache);
  }

  lemma ReleasePhaseStep(s: State, x: State, done: seq<Event>, c: Choice)
    requires ReleasePhase(s, x, done) && !x.terminated
    ensures var y, more := Next(x, Health, c), Extended(done, EventOf(x, Health));
            if x.h.HUnlock? then more == done && SharedOf(y) == SharedOf(x) else ReleasePhase(s, y, more)
  {
  }

  // ------------------------------------------------------------------ on_deactivate

  lemma StopPhaseStep(s: State, x: State, done: seq<Event>, c: Choice)
    requires StopPhase(s, x, done) && !x.terminated
    ensures var y, more := Next(x, Lifecycle, c), Extended(done, EventOf(x, Lifecycle));
            if x.l.DUnlock? then more == done && SharedOf(y) == SharedOf(x) else StopPhase(s, y, more)
  {
  }

  // ------------------------------------------------------------------ on_activate

  lemma ReadLast(done: seq<Event>)
    requires AllUpdates(done) && |done| > 0
    ensures UpdatesThenRead(done + [BusRead])
  {
    assert (done + [BusRead])[..|done|] == done;
  }

  lemma StartPhaseBegins(s: State, x: State, done: seq<Event>, c: Choice)
    requires StartPhase(s, x, done) && !x.terminated && (x.l.ATest? || x.l.AMaster?)
    ensures StartPhase(s, Next(x, Lifecycle, c), Extended(done, EventOf(x, Lifecycle)))
  {
  }

  lemma StartPhaseCycles(s: State, x: State, done: seq<Event>, c: Choice)
    requires StartPhase(s, x, done) && !x.terminated && (x.l.AStartup? || x.l.AEnable? || x.l.ARead?)
    ensures StartPhase(s, Next(x, Lifecycle, c), Extended(done, EventOf(x, Lifecycle)))
  {
    if x.l.ARead? {
      ReadLast(done);
    }
  }

  lemma StartPhaseEnds(s: State, x: State, done: seq<Event>, c: Choice)
    requires StartPhase(s, x, done) && !x.terminated && (x.l.AMonitor? || x.l.ASpawn? || x.l.AUnlock?)
    ensures var y, more := Next(x, Lifecycle, c), Extended(done, EventOf(x, Lifecycle));
            || y.terminated
            || if x.l.AUnlock? then more == done && SharedOf(y) == SharedOf(x) else StartPhase(s, y, more)
  {
  }

  lemma StartPhaseStep(s: State, x: State, done: seq<Event>, c: Choice)
    requires StartPhase(s, x, done) && !x.terminated
    ensures var y, more := Next(x, Lifecycle, c), Extended(done, EventOf(x, Lifecycle));
            || y.terminated
            || if x.l.AUnlock? then more == done && SharedOf(y) == SharedOf(x) else StartPhase(s, y, more)
  {
    if x.l.ATest? || x.l.AMaster? {
      StartPhaseBegins(s, x, done, c);
    } else if x.l.AMonitor? || x.l.ASpawn? || x.l.AUnlock? {
      StartPhaseEnds(s, x, done, c);
    } else {
      StartPhaseCycles(s, x, done, c);
    }
  }

  // ------------------------------------------------------------------ sections are atomic

  predicate Outcome(a: Actor, s: State, after: Shared, done: seq<Event>) {
    match a
    case Io(i) => i < |s.io| && s.io[i].ITry? && IoDone(s.io[i].write, s, after, done)
    case Health => if s.h.HTry? then CheckDone(s, after, done) else s.h.HWait? && ReleaseDone(s, after, done)
    case Lifecycle => if s.l.ALock? then StartDone(s, after, done) else s.l.DLock? && StopDone(s, after, done)
  }

  predicate Leaving(a: Actor, s: State, x: State) {
    match a
    case Io(i) => i < |x.io| && x.io[i].IUnlock?
    case Health => if s.h.HTry? then x.h.HDrop? else x.h.HUnlock?
    case Lifecycle => if s.l.ALock? then x.l.AUnlock? else x.l.DUnlock?
  }

  lemma OwnStep(a: Actor, s: State, x: State, done: seq<Event>, c: Choice)
    requires Phase(a, s, x, done) && !x.terminated
    ensures var y, more := Next(x, a, c), Extended(done, EventOf(x, a));
            || y.terminated
            || if Leaving(a, s, x) then more == done && SharedOf(y) == SharedOf(x) else Phase(a, s, y, more)
  {
    match a {
      case Io(i) => IoPhaseStep(i, s, x, done, c);
      case Health => if s.h.HTry? { CheckPhaseStep(s, x, done, c); } else { ReleasePhaseStep(s, x, done, c); }
      case Lifecycle => if s.l.ALock? { StartPhaseStep(s, x, done, c); } else { StopPhaseStep(s, x, done, c); }
    }
  }

  lemma HealthReleases(s: State, x: State, done: seq<Event>, c: Choice)
    requires Phase(Health, s, x, done) && x.owner.ByHealth? && Next(x, Health, c).owner.Free?
    ensures !x.terminated && Leaving(Health, s, x) && SharedOf(Next(x, Health, c)) == SharedOf(x)
  {
  }

  lemma LifecycleReleases(s: State, x: State, done: seq<Event>, c: Choice)
    requires Phase(Lifecycle, s, x, done) && x.owner.ByLifecycle? && Next(x, Lifecycle, c).owner.Free?
    ensures !x.terminated && Leaving(Lifecycle, s, x) && EventOf(x, Lifecycle).Silent?
    ensures SharedOf(Next(x, Lifecycle, c)) == SharedOf(x)
  {
  }

  lemma Releases(a: Actor, s: State, x: State, done: seq<Event>, c: Choice)
    requires Phase(a, s, x, done) && x.owner == OwnerOf(a) && Next(x, a, c).owner.Free?
    ensures !x.terminated && Leaving(a, s, x) && EventOf(x, a).Silent? && SharedOf(Next(x, a, c)) == SharedOf(x)
  {
    match a {
      case Io(i) =>
      case Health => HealthReleases(s, x, done, c);
      case Lifecycle => LifecycleReleases(s, x, done, c);
    }
  }

  lemma LeavingReleases(a: Actor, s: State, x: State, done: seq<Event>, c: Choice)
    requires Phase(a, s, x, done) && !x.terminated && Leaving(a, s, x)
    ensures Next(x, a, c).owner.Free?
  {
  }

  lemma LeavingIsDone(a: Actor, s: State, x: State, done: seq<Event>)
    requires Phase(a, s, x, done) && Leaving(a, s, x)
    requires match a
             case Io(i) => true
             case Health => s.h.HTry? || s.h.HWait?
             case Lifecycle => s.l.ALock? || s.l.DLock?
    ensures Outcome(a, s, SharedOf(x), done)
  {
  }

  lemma PhaseKept(a: Actor, s: State, x: State, y: State, done: seq<Event>)
    requires Phase(a, s, x, done) && x.owner == OwnerOf(a) && Untouched(x, y)
    ensures Phase(a, s, y, done)
  {
  }

  lemma PhaseBegins(a: Actor, s: State, c: Choice)
    requires Inv(s) && s.owner.Free? && Next(s, a, c).owner == OwnerOf(a)
    ensures Phase(a, s, Next(s, a, c), [])
  {
    Acquires(s, a, c);
  }

  ghost predicate PhaseAt(states: seq<State>, moves: seq<Move>, a: Actor, m: nat, k: nat)
    requires m <= k <= |moves| < |states|
  {
    states[k].terminated || Phase(a, states[m], states[k], Events(states, moves, m, k))
  }

  lemma SectionBegins(states: seq<State>, moves: seq<Move>, a: Actor, m: nat, n: nat)
    requires Section(states, moves, a, m, n)
    ensures PhaseAt(states, moves, a, m, m + 1)
  {
    SectionStarts(states, moves, a, m, n);
    PhaseBegins(a, states[m], moves[m].choice);
  }

  lemma SectionNext(states: seq<State>, moves: seq<Move>, a: Actor, m: nat, n: nat, k: nat)
    requires Section(states, moves, a, m, n) && m + 1 < k < n
    requires PhaseAt(states, moves, a, m, k - 1)
    ensures PhaseAt(states, moves, a, m, k)
  {
    RunMarksFault(states, moves, k - 1);
    var x, move := states[k - 1], moves[k - 1];
    var done := Events(states, moves, m, k - 1);
    assert states[k] == Next(x, move.actor, move.choice) && x.owner == OwnerOf(a) == states[k].owner;
    assert Events(states, moves, m, k) == Extended(done, EventOf(x, move.actor));
    if !x.terminated {
      if move.actor == a {
        OwnStep(a, states[m], x, done, move.choice);
        if Leaving(a, states[m], x) {
          LeavingReleases(a, states[m], x, done, move.choice);
          assert false;
        }
      } else {
        OthersWait(x, move.actor, move.choice);
        PhaseKept(a, states[m], x, states[k], done);
        assert done + [] == done;
      }
    }
  }

  ghost predicate PhaseGoesOn(states: seq<State>, moves: seq<Move>, a: Actor, m: nat, k: nat)
    requires m < k <= |moves| < |states|
  {
    PhaseAt(states, moves, a, m, k - 1) ==> PhaseAt(states, moves, a, m, k)
  }

  lemma {:induction false} PhaseThroughout(states: seq<State>, moves: seq<Move>, a: Actor, m: nat, n: nat, k: nat)
    requires m < k < n <= |moves| < |states| && PhaseAt(states, moves, a, m, m + 1)
    requires forall j | m + 1 < j < n :: PhaseGoesOn(states, moves, a, m, j)
    ensures PhaseAt(states, moves, a, m, k)
  {
    if k > m + 1 {
      PhaseThroughout(states, moves, a, m, n, k - 1);
      assert PhaseGoesOn(states, moves, a, m, k);
    }
  }

  lemma SectionPhase(states: seq<State>, moves: seq<Move>, a: Actor, m: nat, n: nat, k: nat)
    requires Section(states, moves, a, m, n) && m < k < n
    ensures PhaseAt(states, moves, a, m, k)
  {
    SectionBegins(states, moves, a, m, n);
    forall j | m + 1 < j < n ensures PhaseGoesOn(states, moves, a, m, j) {
      if PhaseAt(states, moves, a, m, j - 1) {
        SectionNext(states, moves, a, m, n, j);
      }
    }
    PhaseThroughout(states, moves, a, m, n, k);
  }

  /** A critical section is atomic: what has changed when the mutex is free again, and what happened on the bus,
      is what its thread alone makes of the state in which it got the mutex. */
  lemma SectionsAreAtomic(states: seq<State>, moves: seq<Move>, a: Actor, m: nat, n: nat)
    requires Section(states, moves, a, m, n)
    ensures Outcome(a, states[m], SharedOf(states[n]), Events(states, moves, m, n))
  {
    SectionPhase(states, moves, a, m, n, n - 1);
    RunMarksFault(states, moves, n - 1);
    var x, move := states[n - 1], moves[n - 1];
    var done := Events(states, moves, m, n - 1);
    assert states[n] == Next(x, move.actor, move.choice) && x.owner == OwnerOf(a);
    if move.actor != a {
      OthersWait(x, move.actor, move.choice);
    } else {
      SectionStarts(states, moves, a, m, n);
      Acquires(states[m], a, moves[m].choice);
      Releases(a, states[m], x, done, move.choice);
      LeavingIsDone(a, states[m], x, done);
      assert done + [] == done;
    }
  }
}

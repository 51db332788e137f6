/** The EtherCAT driver's lifecycle as a transition system.

    One lifecycle thread runs on_activate and on_deactivate, any number of I/O threads run read and
    write, and on_activate spawns the health thread.  They share ec_mutex_, activated_,
    deactivate_pending_, monitor_running_, the master and its cached bus state.  A step is one access
    to that shared state; a Choice holds everything the code does not decide itself. */
module Lifecycle {

  /** What checkMasterState and checkSlaveStates last cached. */
  datatype BusCache = BusCache(linkUp: bool, slavesResponding: nat, operational: seq<bool>)

  predicate AnyOperational(operational: seq<bool>) {
    |operational| > 0 && (operational[0] || AnyOperational(operational[1..]))
  }

  predicate Healthy(c: BusCache) {
    c.linkUp && c.slavesResponding != 0 && AnyOperational(c.operational)
  }

  datatype Owner = Free | ByLifecycle | ByHealth | ByIo(thread: nat)

  /** A: on_activate, D: on_deactivate. */
  datatype LifecyclePc =
    | LIdle
    | ALock | ATest | AMaster | AStartup | AEnable | ARead | AMonitor | ASpawn | AUnlock
    | DLock | DFlag | DMonitor | DJoin | DMaster | DUnlock

  /** HNone: health_thread_ is not joinable.  HExit: it has returned but was not joined. */
  datatype HealthPc =
    | HNone | HLoop | HTry | HEval | HMark | HDrop | HCheck
    | HWait | HRelease | HFlag | HClear | HUnlock | HSleep | HExit

  datatype IoPc =
    | IIdle | ITry(write: bool) | ITest(write: bool) | IHealth(write: bool)
    | IMark | IBus(write: bool) | IUnlock

  datatype State = State(
    owner: Owner,         // of ec_mutex_
    activated: bool,
    pending: bool,        // deactivate_pending_
    monitor: bool,        // monitor_running_
    masterActive: bool,
    cache: BusCache,
    counter: nat,         // update_counter_
    l: LifecyclePc,
    h: HealthPc,
    io: seq<IoPc>,
    terminated: bool)     // std::terminate was called

  datatype Actor = Lifecycle | Health | Io(thread: nat)

  /** What a step does on the bus. */
  datatype Event = Silent | BusUpdate | BusRead | BusWrite

  /** Which of its branches a step takes, and what the bus reports when it is asked. */
  datatype Choice = Choice(branch: nat, report: BusCache)

  const CHECK_STATE_FREQUENCY := 10

  predicate Init(s: State) {
    && s.owner.Free? && !s.activated && !s.pending && !s.monitor && !s.masterActive
    && s.l.LIdle? && s.h.HNone? && !s.terminated && s.counter == 0
    && forall i | 0 <= i < |s.io| :: s.io[i].IIdle?
  }

  /** A receiving bus cycle refreshes the cache on every tenth count and on no other. */
  function Received(s: State, c: Choice): State {
    s.(cache := if s.counter % CHECK_STATE_FREQUENCY == 0 then c.report else s.cache,
       counter := s.counter + 1)
  }

  /** The actor has nothing to do, or waits for the mutex or for the thread it joins. */
  predicate Blocked(s: State, a: Actor) {
    || s.terminated
    || match a
       case Lifecycle =>
         || ((s.l.ALock? || s.l.DLock?) && !s.owner.Free?)
         || (s.l.DJoin? && !s.h.HNone? && !s.h.HExit?)
       case Health => s.h.HNone? || s.h.HExit? || (s.h.HWait? && !s.owner.Free?)
       case Io(i) => i >= |s.io|
  }

  predicate Deactivating(l: LifecyclePc) {
    l.DLock? || l.DFlag? || l.DMonitor? || l.DJoin? || l.DMaster? || l.DUnlock?
  }

  function ActivateStep(s: State, c: Choice): State
    requires !Blocked(s, Lifecycle) && !Deactivating(s.l)
  {
    match s.l
    case LIdle => if c.branch == 0 then s else s.(l := if c.branch == 1 then ALock else DLock)
    case ALock => s.(owner := ByLifecycle, l := ATest)
    // A double activation or a negative control frequency returns ERROR.
    case ATest => s.(l := if s.activated || c.branch == 0 then AUnlock else AMaster)
    // activate() can fail before or after the master itself went active.
    case AMaster =>
      if c.branch == 0 then s.(l := AUnlock)
      else s.(masterActive := true, l := if c.branch == 1 then AUnlock else AStartup)
    // The startup timeout, another cycle, or every slave operational.
    case AStartup =>
      Received(s, c).(l := if c.branch == 0 then AUnlock else if c.branch == 1 then AStartup else AEnable)
    case AEnable => s.(activated := true, l := ARead)
    case ARead => Received(s, c).(l := AMonitor)
    case AMonitor => s.(monitor := true, l := ASpawn)
    // Assigning to a joinable std::thread calls std::terminate.
    case ASpawn => if s.h.HNone? then s.(h := HLoop, l := AUnlock) else s.(terminated := true)
    case AUnlock => s.(owner := Free, l := LIdle)
  }

  function DeactivateStep(s: State): State
    requires !Blocked(s, Lifecycle) && Deactivating(s.l)
  {
    match s.l
    case DLock => s.(owner := ByLifecycle, l := DFlag)
    case DFlag => s.(activated := false, l := DMonitor)
    case DMonitor => s.(monitor := false, l := DJoin)
    case DJoin => s.(h := HNone, l := DMaster)
    case DMaster => s.(masterActive := false, l := DUnlock)
    case DUnlock => s.(owner := Free, l := LIdle)
  }

  function HealthStep(s: State, c: Choice): State
    requires !Blocked(s, Health)
  {
    match s.h
    case HLoop => s.(h := if s.monitor then HTry else HExit)
    // try_lock may fail although the mutex is free.
    case HTry =>
      if s.owner.Free? && c.branch != 0 then s.(owner := ByHealth, h := HEval) else s.(h := HCheck)
    case HEval => s.(h := if s.activated && !Healthy(s.cache) then HMark else HDrop)
    case HMark => s.(pending := true, h := HDrop)
    case HDrop => s.(owner := Free, h := HCheck)
    case HCheck => s.(h := if s.pending then HWait else HSleep)
    case HWait => s.(owner := ByHealth, h := HRelease)
    case HRelease => s.(masterActive := false, h := HFlag)
    case HFlag => s.(activated := false, h := HClear)
    case HClear => s.(pending := false, h := HUnlock)
    case HUnlock => s.(owner := Free, h := HSleep)
    case HSleep => s.(h := HLoop)
  }

  function IoPcAfter(s: State, i: nat, c: Choice): IoPc
    requires i < |s.io|
  {
    match s.io[i]
    case IIdle => if c.branch == 0 then IIdle else ITry(c.branch == 1)
    case ITry(w) => if s.owner.Free? && c.branch != 0 then ITest(w) else IIdle
    case ITest(w) => if s.activated then IHealth(w) else IUnlock
    case IHealth(w) => if Healthy(s.cache) then IBus(w) else IMark
    case IMark => IUnlock
    case IBus(w) => IUnlock
    case IUnlock => IIdle
  }

  function IoStep(s: State, i: nat, c: Choice): State
    requires !Blocked(s, Io(i))
  {
    var pc, pc' := s.io[i], IoPcAfter(s, i, c);
    (if pc.IBus? && !pc.write then Received(s, c) else s).(
      owner := if pc'.ITest? then ByIo(i) else if pc.IUnlock? then Free else s.owner,
      pending := s.pending || pc.IMark?,
      io := s.io[i := pc'])
  }

  /** Scheduling an actor: it takes one step, or it is blocked and nothing happens. */
  function Next(s: State, a: Actor, c: Choice): State {
    if Blocked(s, a) then s
    else
      match a
      case Lifecycle => if Deactivating(s.l) then DeactivateStep(s) else ActivateStep(s, c)
      case Health => HealthStep(s, c)
      case Io(i) => IoStep(s, i, c)
  }

  function EventOf(s: State, a: Actor): Event {
    if Blocked(s, a) then Silent
    else
      match a
      case Lifecycle => if s.l.AStartup? then BusUpdate else if s.l.ARead? then BusRead else Silent
      case Health => Silent
      case Io(i) => if s.io[i].IBus? then (if s.io[i].write then BusWrite else BusRead) else Silent
  }
}

/** Safety of the lifecycle over every interleaving. */
module LifecycleSafety {
  import opened Lifecycle

  predicate LifecycleHolds(l: LifecyclePc) {
    !(l.LIdle? || l.ALock? || l.DLock?)
  }

  predicate HealthHolds(h: HealthPc) {
    h.HEval? || h.HMark? || h.HDrop? || h.HRelease? || h.HFlag? || h.HClear? || h.HUnlock?
  }

  predicate IoHolds(pc: IoPc) {
    !(pc.IIdle? || pc.ITry?)
  }

  predicate Alive(h: HealthPc) {
    !h.HNone? && !h.HExit?
  }

  predicate IoExclusion(owner: Owner, io: seq<IoPc>) {
    && (owner.ByIo? ==> owner.thread < |io| && IoHolds(io[owner.thread]))
    && forall i | 0 <= i < |io| && IoHolds(io[i]) :: owner.ByIo? && owner.thread == i
  }

  /** Who is inside a critical section is who owns the mutex. */
  predicate MutualExclusion(s: State) {
    && (s.owner.ByLifecycle? <==> LifecycleHolds(s.l))
    && (s.owner.ByHealth? <==> HealthHolds(s.h))

    && IoExclusion(s.owner, s.io)
  }

  predicate FlagsAgree(s: State) {
    && (s.activated ==> s.masterActive || s.h.HFlag?)
    && (s.l.AStartup? || s.l.AEnable? ==> s.masterActive)
    && (s.l.ARead? || s.l.AMonitor? || s.l.ASpawn? ==> s.activated)
    && (s.l.AMaster? || s.l.AStartup? || s.l.AEnable? ==> !s.activated)
    && (s.l.DMonitor? || s.l.DJoin? || s.l.DMaster? || s.l.DUnlock? ==> !s.activated)
    && (s.owner.ByIo? && s.owner.thread < |s.io| ==>
          var pc := s.io[s.owner.thread];
          (pc.IHealth? || pc.IBus? ==> s.activated) && (pc.IBus? ==> Healthy(s.cache)))
  }

  predicate HealthThreadAgrees(s: State) {
    && (s.h.HWait? || s.h.HRelease? || s.h.HFlag? || s.h.HClear? ==> s.pending)
    && (Alive(s.h) ==> s.monitor || s.l.DJoin?)
    && (s.h.HExit? ==> s.l.DJoin?)
    && (s.h.HNone? ==> !s.monitor || s.l.ASpawn?)
    && (s.activated && !Alive(s.h) ==> s.l.ARead? || s.l.AMonitor? || s.l.ASpawn?)
    && (s.l.DJoin? ==> !s.monitor)
    && (s.l.ASpawn? ==> s.monitor)
    && (s.l.DMaster? || s.l.DUnlock? ==> s.h.HNone?)
  }

  predicate Inv(s: State) {
    MutualExclusion(s) && FlagsAgree(s) && HealthThreadAgrees(s)
  }

  lemma InitInv(s: State)
    requires Init(s)
    ensures Inv(s)
  {
  }

  lemma IoExclusionWithout(owner: Owner, owner': Owner, io: seq<IoPc>)
    requires IoExclusion(owner, io) && !owner.ByIo? && !owner'.ByIo?
    ensures IoExclusion(owner', io)
  {
  }

  lemma IoExclusionAt(owner: Owner, owner': Owner, io: seq<IoPc>, i: nat, pc: IoPc)
    requires IoExclusion(owner, io) && i < |io|
    requires IoHolds(pc) ==> owner.Free? || owner == ByIo(i)
    requires owner' == if IoHolds(pc) then ByIo(i) else if owner == ByIo(i) then Free else owner
    ensures IoExclusion(owner', io[i := pc])
  {
  }

  lemma ActivateKeepsMutex(s: State, c: Choice)
    requires MutualExclusion(s) && !Blocked(s, Lifecycle) && !Deactivating(s.l)
    ensures MutualExclusion(ActivateStep(s, c))
  {
    var t := ActivateStep(s, c);
    match s.l {
      case ALock => IoExclusionWithout(s.owner, t.owner, s.io);
      case AUnlock => IoExclusionWithout(s.owner, t.owner, s.io);
      case _ =>
    }
  }

  lemma ActivateKeepsFlags(s: State, c: Choice)
    requires Inv(s) && !Blocked(s, Lifecycle) && !Deactivating(s.l)
    ensures FlagsAgree(ActivateStep(s, c))
  {
  }

  lemma ActivateKeepsThread(s: State, c: Choice)
    requires MutualExclusion(s) && HealthThreadAgrees(s) && !Blocked(s, Lifecycle) && !Deactivating(s.l)
    ensures HealthThreadAgrees(ActivateStep(s, c))
  {
  }

  lemma DeactivateKeepsMutex(s: State)
    requires MutualExclusion(s) && !Blocked(s, Lifecycle) && Deactivating(s.l)
    ensures MutualExclusion(DeactivateStep(s))
  {
    var t := DeactivateStep(s);
    match s.l {
      case DLock => IoExclusionWithout(s.owner, t.owner, s.io);
      case DUnlock => IoExclusionWithout(s.owner, t.owner, s.io);
      case _ =>
    }
  }

  lemma DeactivateKeepsFlags(s: State)
    requires Inv(s) && !Blocked(s, Lifecycle) && Deactivating(s.l)
    ensures FlagsAgree(DeactivateStep(s))
  {
  }

  lemma DeactivateKeepsThread(s: State)
    requires MutualExclusion(s) && HealthThreadAgrees(s) && !Blocked(s, Lifecycle) && Deactivating(s.l)
    ensures HealthThreadAgrees(DeactivateStep(s))
  {
  }

  lemma HealthKeepsMutex(s: State, c: Choice)
    requires MutualExclusion(s) && !Blocked(s, Health)
    ensures MutualExclusion(HealthStep(s, c))
  {
    var t := HealthStep(s, c);
    match s.h {
      case HTry => if t.owner != s.owner { IoExclusionWithout(s.owner, t.owner, s.io); }
      case HDrop => IoExclusionWithout(s.owner, t.owner, s.io);
      case HWait => IoExclusionWithout(s.owner, t.owner, s.io);
      case HUnlock => IoExclusionWithout(s.owner, t.owner, s.io);
      case _ =>
    }
  }

  lemma HealthKeepsFlags(s: State, c: Choice)
    requires Inv(s) && !Blocked(s, Health)
    ensures FlagsAgree(HealthStep(s, c))
  {
  }

  lemma HealthKeepsThread(s: State, c: Choice)
    requires Inv(s) && !Blocked(s, Health)
    ensures HealthThreadAgrees(HealthStep(s, c))
  {
  }

  lemma IoKeepsExclusion(s: State, i: nat, c: Choice)
    requires IoExclusion(s.owner, s.io) && !Blocked(s, Io(i))
    ensures var t := IoStep(s, i, c); IoExclusion(t.owner, t.io)
  {
    assert IoHolds(s.io[i]) <==> s.owner == ByIo(i);
    IoExclusionAt(s.owner, IoStep(s, i, c).owner, s.io, i, IoPcAfter(s, i, c));
  }

  lemma IoKeepsMutex(s: State, i: nat, c: Choice)
    requires MutualExclusion(s) && !Blocked(s, Io(i))
    ensures MutualExclusion(IoStep(s, i, c))
  {
    IoKeepsExclusion(s, i, c);
  }

  lemma IoKeepsFlags(s: State, i: nat, c: Choice)
    requires Inv(s) && !Blocked(s, Io(i))
    ensures FlagsAgree(IoStep(s, i, c))
  {
  }

  lemma IoKeepsThread(s: State, i: nat, c: Choice)
    requires MutualExclusion(s) && HealthThreadAgrees(s) && !Blocked(s, Io(i))
    ensures HealthThreadAgrees(IoStep(s, i, c))
  {
  }

  lemma NextKeepsInv(s: State, a: Actor, c: Choice)
    requires Inv(s)
    ensures Inv(Next(s, a, c))
  {
    if !Blocked(s, a) {
      match a
      case Lifecycle =>
        if Deactivating(s.l) {
          DeactivateKeepsMutex(s);
          DeactivateKeepsFlags(s);
          DeactivateKeepsThread(s);
        } else {
          ActivateKeepsMutex(s, c);
          ActivateKeepsFlags(s, c);
          ActivateKeepsThread(s, c);
        }
      case Health =>
        HealthKeepsMutex(s, c);
        HealthKeepsFlags(s, c);
        HealthKeepsThread(s, c);
      case Io(i) =>
        IoKeepsMutex(s, i, c);
        IoKeepsFlags(s, i, c);
        IoKeepsThread(s, i, c);
    }
  }

  // ------------------------------------------------------------------ runs

  datatype Move = Move(actor: Actor, choice: Choice)

  /** states[k] goes to states[k + 1] by moves[k]. */
  ghost predicate Run(states: seq<State>, moves: seq<Move>) {
    && |states| == |moves| + 1
    && forall k | 0 <= k < |moves| :: states[k + 1] == Next(states[k], moves[k].actor, moves[k].choice)
  }

  lemma {:induction false} RunKeepsInv(states: seq<State>, moves: seq<Move>, k: nat)
    requires Run(states, moves) && Inv(states[0]) && k < |states|
    ensures Inv(states[k])
  {
    if k > 0 {
      RunKeepsInv(states, moves, k - 1);
      NextKeepsInv(states[k - 1], moves[k - 1].actor, moves[k - 1].choice);
    }
  }

  function OwnerOf(a: Actor): Owner {
    match a
    case Lifecycle => ByLifecycle
    case Health => ByHealth
    case Io(i) => ByIo(i)
  }

  /** In every interleaving from the initial state: a free mutex and activated_ mean an active master,
      and process data is exchanged only by the holder of the mutex with the master active; readData
      and writeData also need activated_.  The health thread never touches the bus. */
  lemma BusDiscipline(states: seq<State>, moves: seq<Move>, k: nat)
    requires Run(states, moves) && Init(states[0]) && k < |moves|
    ensures states[k].owner.Free? && states[k].activated ==> states[k].masterActive
    ensures var e := EventOf(states[k], moves[k].actor);
            && (!e.Silent? ==>
                  && states[k].owner == OwnerOf(moves[k].actor)
                  && states[k].masterActive
                  && !moves[k].actor.Health?)
            && (e.BusRead? || e.BusWrite? ==> states[k].activated)
            && (e.BusUpdate? ==> moves[k].actor.Lifecycle? && !states[k].activated)
  {
    InitInv(states[0]);
    RunKeepsInv(states, moves, k);
  }

  /** In every interleaving from the initial state, whoever finds deactivate_pending_ set and waits
      for the mutex still finds it set when it gets the mutex, and only the health thread clears it. */
  lemma PendingClearedOnlyByHealth(states: seq<State>, moves: seq<Move>, k: nat)
    requires Run(states, moves) && Init(states[0]) && k < |moves|
    ensures states[k].h.HWait? ==> states[k].pending
    ensures states[k].pending && !states[k + 1].pending ==> moves[k].actor.Health? && states[k].h.HClear?
  {
    InitInv(states[0]);
    RunKeepsInv(states, moves, k);
  }

  predicate BringsUp(l: LifecyclePc) {
    l.AStartup? || l.AEnable? || l.ARead?
  }

  /** While the cache is unhealthy and no on_activate is in its start-up cycles, a step leaves the
      cache as it is and does not touch the bus. */
  lemma LatchStep(s: State, a: Actor, c: Choice)
    requires Inv(s) && !Healthy(s.cache) && !BringsUp(s.l)
    ensures EventOf(s, a).Silent? && Next(s, a, c).cache == s.cache
    ensures BringsUp(Next(s, a, c).l) ==> Next(s, a, c).l.AStartup?
  {
  }

  /** The fault latch over whole runs: from an unhealthy cache outside start-up no thread reads or
      writes the bus, and the cache cannot recover, until an on_activate gets its master active again. */
  lemma {:induction false} FaultLatch(states: seq<State>, moves: seq<Move>, k: nat)
    requires Run(states, moves) && Inv(states[0])
    requires !Healthy(states[0].cache) && !BringsUp(states[0].l)
    requires forall j | 0 <= j < |states| :: !states[j].l.AStartup?
    requires k < |states|
    ensures states[k].cache == states[0].cache && !BringsUp(states[k].l)
    ensures forall j | 0 <= j < k :: EventOf(states[j], moves[j].actor).Silent?
  {
    if k > 0 {
      FaultLatch(states, moves, k - 1);
      RunKeepsInv(states, moves, k - 1);
      LatchStep(states[k - 1], moves[k - 1].actor, moves[k - 1].choice);
    }
  }

  // ------------------------------------------------------------------ a second activation

  predicate PastTest(l: LifecyclePc) {
    l.AMaster? || BringsUp(l) || l.AMonitor? || l.ASpawn?
  }

  lemma LeftoverStep(s: State, a: Actor, c: Choice)
    requires Inv(s) && PastTest(s.l) && !s.l.ASpawn?
    ensures Next(s, a, c).h.HNone? <==> s.h.HNone?
    ensures Next(s, a, c).terminated == s.terminated
  {
  }

  lemma {:induction false} LeftoverRun(states: seq<State>, moves: seq<Move>, k: nat)
    requires Run(states, moves) && Inv(states[0]) && k < |states|
    requires forall j | 0 <= j < k :: PastTest(states[j].l) && !states[j].l.ASpawn?
    ensures states[k].h.HNone? <==> states[0].h.HNone?
    ensures states[k].terminated == states[0].terminated
  {
    if k > 0 {
      LeftoverRun(states, moves, k - 1);
      RunKeepsInv(states, moves, k - 1);
      LeftoverStep(states[k - 1], moves[k - 1].actor, moves[k - 1].choice);
    }
  }

  /** Once on_activate passed its test, whether it ends in std::terminate is decided by whether the
      health thread of an earlier activation is still joinable: nothing the other threads do in the
      meantime changes that. */
  lemma SecondActivationTerminates(states: seq<State>, moves: seq<Move>)
    requires Run(states, moves) && |moves| > 0 && Inv(states[0]) && !states[0].terminated
    requires forall j | 0 <= j < |moves| :: PastTest(states[j].l)
    requires forall j | 0 <= j < |moves| - 1 :: !states[j].l.ASpawn?
    requires states[|moves| - 1].l.ASpawn? && moves[|moves| - 1].actor.Lifecycle?
    ensures states[|moves|].terminated <==> !states[0].h.HNone?
    ensures !states[|moves|].terminated ==> states[|moves|].h.HLoop? && states[|moves|].l.AUnlock?
  {
    LeftoverRun(states, moves, |moves| - 1);
  }

  /** The lifecycle thread starts a health thread, or joins it. */
  predicate Spawns(s: State, a: Actor) {
    a.Lifecycle? && !Blocked(s, a) && s.l.ASpawn?
  }

  predicate Joins(s: State, a: Actor) {
    a.Lifecycle? && !Blocked(s, a) && s.l.DJoin?
  }

  /** The last of those before step k was a start: no on_deactivate has joined the thread since. */
  ghost predicate LastSpawned(states: seq<State>, moves: seq<Move>, k: nat)
    requires |states| == |moves| + 1 && k <= |moves|
  {
    k > 0
    && (Spawns(states[k - 1], moves[k - 1].actor)
        || (!Joins(states[k - 1], moves[k - 1].actor) && LastSpawned(states, moves, k - 1)))
  }

  lemma ActivateStarts(s: State, c: Choice)
    requires !Blocked(s, Lifecycle) && !Deactivating(s.l)
    ensures !ActivateStep(s, c).h.HNone? <==> s.l.ASpawn? || !s.h.HNone?
    ensures ActivateStep(s, c).terminated <==> s.l.ASpawn? && !s.h.HNone?
  {
  }

  lemma DeactivateJoins(s: State)
    requires !Blocked(s, Lifecycle) && Deactivating(s.l)
    ensures !DeactivateStep(s).h.HNone? <==> !s.l.DJoin? && !s.h.HNone?
    ensures !DeactivateStep(s).terminated
  {
  }

  lemma HealthKeepsHandle(s: State, c: Choice)
    requires !Blocked(s, Health)
    ensures !Next(s, Health, c).h.HNone? && Next(s, Health, c).terminated == s.terminated
  {
  }

  lemma IoKeepsHandle(s: State, i: nat, c: Choice)
    requires !Blocked(s, Io(i))
    ensures Next(s, Io(i), c).h == s.h && Next(s, Io(i), c).terminated == s.terminated
  {
  }

  lemma ThreadHandleStep(s: State, a: Actor, c: Choice)
    ensures !Next(s, a, c).h.HNone? <==> Spawns(s, a) || (!Joins(s, a) && !s.h.HNone?)
    ensures Next(s, a, c).terminated <==> s.terminated || (Spawns(s, a) && !s.h.HNone?)
  {
    if !Blocked(s, a) {
      match a {
        case Lifecycle => if Deactivating(s.l) { DeactivateJoins(s); } else { ActivateStarts(s, c); }
        case Health => HealthKeepsHandle(s, c);
        case Io(i) => IoKeepsHandle(s, i, c);
      }
    }
  }

  /** In every run health_thread_ is joinable exactly if the last start of a health thread was not
      followed by a join: a thread that has released the master by itself, or has returned, still is. */
  lemma {:induction false} JoinableIffLastSpawned(states: seq<State>, moves: seq<Move>, k: nat)
    requires Run(states, moves) && Init(states[0]) && k < |states|
    ensures !states[k].h.HNone? <==> LastSpawned(states, moves, k)
  {
    if k > 0 {
      JoinableIffLastSpawned(states, moves, k - 1);
      ThreadHandleStep(states[k - 1], moves[k - 1].actor, moves[k - 1].choice);
    }
  }

  /** A live process ends at a step exactly if that step starts a health thread and the last one started
      was never joined. */
  lemma TerminatesIff(states: seq<State>, moves: seq<Move>, k: nat)
    requires Run(states, moves) && Init(states[0]) && k < |moves| && !states[k].terminated
    ensures states[k + 1].terminated <==> Spawns(states[k], moves[k].actor) && LastSpawned(states, moves, k)
  {
    JoinableIffLastSpawned(states, moves, k);
    ThreadHandleStep(states[k], moves[k].actor, moves[k].choice);
  }
}

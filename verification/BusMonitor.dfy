/** The cached bus state behind isLinkUp, slavesResponding and anySlaveOperational, and how on_activate waits
    for the modules. */
module BusMonitor {
  import opened Lifecycle

  /** One slave_info_ element: the module it was added for, and its cached config_state.operational. */
  datatype Info = Info(owner: nat, operational: bool)

  /** What the master caches; flags are the modules' own is_operational_. */
  datatype Bus = Bus(linkUp: bool, responding: nat, infos: seq<Info>, flags: seq<bool>, counter: nat)

  predicate Valid(b: Bus) {
    forall i | 0 <= i < |b.infos| :: b.infos[i].owner < |b.flags|
  }

  function Operational(infos: seq<Info>): (r: seq<bool>)
    ensures |r| == |infos|
  {
    seq(|infos|, i requires 0 <= i < |infos| => infos[i].operational)
  }

  function CacheOf(b: Bus): BusCache {
    BusCache(b.linkUp, b.responding, Operational(b.infos))
  }

  /** The modules' flags after the first n elements: a module is told only about changes. */
  function Told(flags: seq<bool>, infos: seq<Info>, report: seq<bool>, n: nat): (r: seq<bool>)
    requires n <= |infos| == |report| && forall i | 0 <= i < |infos| :: infos[i].owner < |flags|
    ensures |r| == |flags|
  {
    if n == 0 then flags
    else
      var before, info := Told(flags, infos, report, n - 1), infos[n - 1];
      if report[n - 1] != info.operational then before[info.owner := report[n - 1]] else before
  }

  /** Element i tells its module something. */
  predicate Changes(infos: seq<Info>, report: seq<bool>, m: nat, i: nat) {
    i < |infos| == |report| && infos[i].owner == m && report[i] != infos[i].operational
  }

  /** A module's flag is what the last of its elements that changed reports, or as it was. */
  lemma {:induction false} ToldLast(flags: seq<bool>, infos: seq<Info>, report: seq<bool>, n: nat, m: nat)
    requires n <= |infos| == |report| && forall i | 0 <= i < |infos| :: infos[i].owner < |flags|
    requires m < |flags|
    ensures || (Told(flags, infos, report, n)[m] == flags[m] && forall i: nat | i < n :: !Changes(infos, report, m, i))
            || exists k: nat :: && k < n && Changes(infos, report, m, k)
                                && Told(flags, infos, report, n)[m] == report[k]
                                && forall i: nat | k < i < n :: !Changes(infos, report, m, i)
  {
    if n > 0 {
      ToldLast(flags, infos, report, n - 1, m);
      if Changes(infos, report, m, n - 1) {
        assert Told(flags, infos, report, n)[m] == report[n - 1];
      }
    }
  }

  function Noted(infos: seq<Info>, report: seq<bool>): (r: seq<Info>)
    requires |infos| == |report|
    ensures |r| == |infos|
  {
    seq(|infos|, i requires 0 <= i < |infos| => Info(infos[i].owner, report[i]))
  }

  predicate Checks(counter: nat) {
    counter % CHECK_STATE_FREQUENCY == 0
  }

  predicate Matches(b: Bus, report: BusCache) {
    |report.operational| == |b.infos|
  }

  /** The receiving half of update and readData. */
  function ReceiveStep(b: Bus, report: BusCache): (r: Bus)
    requires Valid(b) && Matches(b, report)
    ensures Valid(r) && |r.infos| == |b.infos| && r.counter == b.counter + 1
  {
    if Checks(b.counter) then
      Bus(report.linkUp, report.slavesResponding, Noted(b.infos, report.operational),
          Told(b.flags, b.infos, report.operational, |b.infos|), b.counter + 1)
    else b.(counter := b.counter + 1)
  }

  /** It is what the lifecycle's Received step does to the cache. */
  lemma ReceiveIsReceived(b: Bus, report: BusCache, s: State)
    requires Valid(b) && Matches(b, report) && s.cache == CacheOf(b) && s.counter == b.counter
    ensures Received(s, Choice(0, report)).cache == CacheOf(ReceiveStep(b, report))
    ensures Received(s, Choice(0, report)).counter == ReceiveStep(b, report).counter
  {
    assert Operational(Noted(b.infos, report.operational)) == report.operational;
  }

  // ------------------------------------------------------------------ how old the cache can be

  /** The n-th cycle from here asks the bus for its state. */
  predicate ChecksIn(b: Bus, n: nat) {
    Checks(b.counter + n)
  }

  ghost predicate AllMatch(b: Bus, reports: nat -> BusCache) {
    forall t: nat :: Matches(b, reports(t))
  }

  /** The state after n start-up cycles. */
  ghost function After(b: Bus, reports: nat -> BusCache, n: nat): (r: Bus)
    requires Valid(b) && AllMatch(b, reports)
    ensures Valid(r) && |r.infos| == |b.infos| && r.counter == b.counter + n
  {
    if n == 0 then b
    else
      assert Matches(b, reports(n - 1));
      ReceiveStep(After(b, reports, n - 1), reports(n - 1))
  }

  lemma {:induction false} CacheStays(b: Bus, reports: nat -> BusCache, n: nat, m: nat)
    requires Valid(b) && AllMatch(b, reports) && n <= m
    requires forall k: nat | n <= k < m :: !ChecksIn(b, k)
    ensures CacheOf(After(b, reports, m)) == CacheOf(After(b, reports, n))
    decreases m - n
  {
    if n < m {
      CacheStays(b, reports, n, m - 1);
      assert Matches(b, reports(m - 1)) && !ChecksIn(b, m - 1);
    }
  }

  lemma NextCheck(b: Bus) returns (n: nat)
    ensures n < 10 && ChecksIn(b, n) && forall k: nat | n < k < 10 :: !ChecksIn(b, k)
  {
    n := (10 - b.counter % 10) % 10;
  }

  lemma CheckTakes(b: Bus, report: BusCache)
    requires Valid(b) && Matches(b, report) && Checks(b.counter)
    ensures CacheOf(ReceiveStep(b, report)) == report
  {
    assert Operational(Noted(b.infos, report.operational)) == report.operational;
  }

  /** After any ten receiving cycles the cache is what the bus reported in one of them. */
  lemma KnownWithinTen(b: Bus, reports: nat -> BusCache) returns (n: nat)
    requires Valid(b) && AllMatch(b, reports)
    ensures n < 10 && CacheOf(After(b, reports, 10)) == reports(n)
  {
    n := NextCheck(b);
    assert Matches(b, reports(n));
    CheckTakes(After(b, reports, n), reports(n));
    CacheStays(b, reports, n + 1, 10);
  }

  // ------------------------------------------------------------------ start-up

  predicate AllUp(flags: seq<bool>) {
    forall m | 0 <= m < |flags| :: flags[m]
  }

  /** The cycle after which every module reports itself initialised for the first time. */
  ghost predicate EndsAt(b: Bus, reports: nat -> BusCache, t: nat)
    requires Valid(b) && AllMatch(b, reports)
  {
    AllUp(After(b, reports, t + 1).flags) && forall n: nat | 1 <= n <= t :: !AllUp(After(b, reports, n).flags)
  }

  predicate NoneOperational(report: seq<bool>) {
    forall i | 0 <= i < |report| :: !report[i]
  }

  /** No slave has been reported operational up to cycle t. */
  ghost predicate QuietUpTo(b: Bus, reports: nat -> BusCache, t: nat) {
    forall n: nat | n <= t && ChecksIn(b, n) :: NoneOperational(reports(n).operational)
  }

  /** Some of the first n elements was added for module m and is cached as operational. */
  predicate Remembered(infos: seq<Info>, m: nat, n: nat)
    requires n <= |infos|
  {
    exists i | 0 <= i < n :: infos[i] == Info(m, true)
  }

  /** A report without operational slaves takes a module's flag away if one of its elements had it. */
  lemma {:induction false} QuietTold(flags: seq<bool>, infos: seq<Info>, report: seq<bool>, n: nat, m: nat)
    requires n <= |infos| == |report| && forall i | 0 <= i < |infos| :: infos[i].owner < |flags|
    requires NoneOperational(report) && m < |flags|
    ensures Told(flags, infos, report, n)[m] <==> flags[m] && !Remembered(infos, m, n)
  {
    if n > 0 {
      QuietTold(flags, infos, report, n - 1, m);
      if infos[n - 1].operational && infos[n - 1].owner == m {
        assert infos[n - 1] == Info(m, true);
      }
    }
  }

  /** The start-up believes flags left over from an earlier activation: they are all set, and the first
      cycle either does not check or finds no cached slave operational. */
  predicate Stale(b: Bus) {
    AllUp(b.flags) && (!Checks(b.counter) || NoneOperational(Operational(b.infos)))
  }

  lemma QuietFlags(b: Bus, flags: seq<bool>)
    requires Valid(b) && |flags| == |b.flags|
    requires forall m | 0 <= m < |flags| :: flags[m] <==> b.flags[m] && !Remembered(b.infos, m, |b.infos|)
    ensures AllUp(flags) <==> AllUp(b.flags) && NoneOperational(Operational(b.infos))
  {
    if i :| 0 <= i < |b.infos| && b.infos[i].operational {
      assert b.infos[i] == Info(b.infos[i].owner, true);
      assert Remembered(b.infos, b.infos[i].owner, |b.infos|) && !flags[b.infos[i].owner];
      assert Operational(b.infos)[i];
    } else {
      assert forall i | 0 <= i < |b.infos| :: !b.infos[i].operational;
    }
  }

  lemma QuietCycle(b: Bus, report: BusCache)
    requires Valid(b) && Matches(b, report)
    requires Checks(b.counter) ==> NoneOperational(report.operational)
    ensures AllUp(ReceiveStep(b, report).flags) <==> Stale(b)
  {
    if Checks(b.counter) {
      var r := ReceiveStep(b, report);
      forall m | 0 <= m < |b.flags|
        ensures r.flags[m] <==> b.flags[m] && !Remembered(b.infos, m, |b.infos|)
      {
        QuietTold(b.flags, b.infos, report.operational, |b.infos|, m);
      }
      QuietFlags(b, r.flags);
    }
  }

  /** Exactly when a start-up ends before any slave has reported operational since the activation: only after
      its first cycle, and only on flags left over from before. */
  lemma EndsUnreportedIff(b: Bus, reports: nat -> BusCache, t: nat)
    requires Valid(b) && AllMatch(b, reports) && QuietUpTo(b, reports, t)
    ensures EndsAt(b, reports, t) <==> t == 0 && Stale(b)
  {
    var before := After(b, reports, t);
    assert Matches(b, reports(t));
    QuietCycle(before, reports(t));
    assert After(b, reports, 0) == b;
    if t > 0 && Stale(before) {
      assert AllUp(After(b, reports, t).flags) && 1 <= t <= t;
    }
  }

  // ------------------------------------------------------------------ activating again

  /** What addSlave adds for the first n modules: one element for each whose configuration was obtained. */
  function Joined(configured: seq<bool>, n: nat): (r: seq<Info>)
    requires n <= |configured|
    ensures forall i | 0 <= i < |r| :: r[i].owner < n && !r[i].operational
  {
    if n == 0 then []
    else Joined(configured, n - 1) + if configured[n - 1] then [Info(n - 1, false)] else []
  }

  /** Exactly the configured modules join. */
  lemma {:induction false} JoinedIff(configured: seq<bool>, n: nat, m: nat)
    requires n <= |configured|
    ensures Info(m, false) in Joined(configured, n) <==> m < n && configured[m]
  {
    if n > 0 {
      JoinedIff(configured, n - 1, m);
    }
  }

  predicate Increasing(infos: seq<Info>) {
    forall i, j | 0 <= i < j < |infos| :: infos[i].owner < infos[j].owner
  }

  lemma {:induction false} JoinedIncreases(configured: seq<bool>, n: nat)
    requires n <= |configured|
    ensures Increasing(Joined(configured, n))
  {
    if n > 0 {
      JoinedIncreases(configured, n - 1);
    }
  }

  /** Each once, and in order. */
  lemma JoinedOnce(configured: seq<bool>, m: nat)
    requires m < |configured|
    ensures Info(m, false) in Joined(configured, |configured|) <==> configured[m]
    ensures Increasing(Joined(configured, |configured|))
  {
    JoinedIff(configured, |configured|, m);
    JoinedIncreases(configured, |configured|);
  }

  /** Each activation adds the modules once more. */
  function Activated(b: Bus, configured: seq<bool>): Bus {
    b.(infos := b.infos + Joined(configured, |configured|))
  }

  function Initial(modules: nat): Bus {
    Bus(false, 0, [], seq(modules, _ => false), 0)
  }

  lemma {:induction false} NoneAny(operational: seq<bool>)
    requires NoneOperational(operational)
    ensures !AnyOperational(operational)
  {
    if |operational| > 0 {
      NoneAny(operational[1..]);
    }
  }

  lemma {:induction false} AnyWithoutNew(operational: seq<bool>, more: seq<bool>)
    requires NoneOperational(more)
    ensures AnyOperational(operational + more) <==> AnyOperational(operational)
    decreases |operational|
  {
    if |operational| > 0 {
      AnyWithoutNew(operational[1..], more);
      assert (operational + more)[1..] == operational[1..] + more;
    } else {
      NoneAny(more);
      assert operational + more == more;
    }
  }

  /** Adding the modules changes neither the health of the bus nor which modules are believed: whether a new
      activation waits for no report is decided by what the last one left behind. */
  lemma ActivatedKeeps(b: Bus, configured: seq<bool>)
    requires Valid(b) && |configured| == |b.flags|
    ensures Valid(Activated(b, configured))
    ensures Healthy(CacheOf(Activated(b, configured))) <==> Healthy(CacheOf(b))
    ensures Stale(Activated(b, configured)) <==> Stale(b)
  {
    var joined := Joined(configured, |configured|);
    var all := Operational(Activated(b, configured).infos);
    assert all == Operational(b.infos) + Operational(joined);
    AnyWithoutNew(Operational(b.infos), Operational(joined));
    if NoneOperational(all) {
      forall i | 0 <= i < |b.infos| ensures !Operational(b.infos)[i] {
        assert !all[i];
      }
    }
  }

  /** The first activation of a driver with modules always waits for a report. */
  lemma FirstActivationWaits(configured: seq<bool>, reports: nat -> BusCache, t: nat)
    requires |configured| > 0
    requires var b := Activated(Initial(|configured|), configured); AllMatch(b, reports) && QuietUpTo(b, reports, t)
    ensures var b := Activated(Initial(|configured|), configured); Valid(b) && !EndsAt(b, reports, t)
  {
    ActivatedKeeps(Initial(|configured|), configured);
    assert !Initial(|configured|).flags[0];
    EndsUnreportedIff(Activated(Initial(|configured|), configured), reports, t);
  }

  /** An input on which the second does not: one module comes up in the first cycle, is read once, and the
      driver is activated again; the start-up ends after one cycle although no slave was reported. */
  lemma SecondActivationDoesNot(up: BusCache, read: BusCache, reports: nat -> BusCache)
    requires up.operational == [true] && |read.operational| == 1
    ensures var first := Activated(Initial(1), [true]);
            && Valid(first) && Matches(first, up)
            && Matches(ReceiveStep(first, up), read)
            && var second := Activated(ReceiveStep(ReceiveStep(first, up), read), [true]);
               && Valid(second) && !Checks(second.counter)
               && (AllMatch(second, reports) ==> EndsAt(second, reports, 0))
  {
    var first := Activated(Initial(1), [true]);
    assert Joined([true], 1) == Joined([true], 0) + [Info(0, false)];
    assert first.infos == [Info(0, false)] && first.flags == [false];
    var came := ReceiveStep(first, up);
    assert Told([false], first.infos, up.operational, 1) == [true];
    var second := Activated(ReceiveStep(came, read), [true]);
    assert second.flags == [true] && second.counter == 2;
    if AllMatch(second, reports) {
      EndsUnreportedIff(second, reports, 0);
    }
  }

  // ------------------------------------------------------------------ the objects

  class Monitor {
    var linkUp: bool
    var responding: nat
    var infos: seq<Info>
    var flags: seq<bool>
    var counter: nat

    function Value(): Bus
      reads this
    {
      Bus(linkUp, responding, infos, flags, counter)
    }

    constructor (modules: nat)
      ensures Value() == Initial(modules) && !Healthy(CacheOf(Value()))
    {
      linkUp, responding, infos, counter := false, 0, [], 0;
      flags := seq(modules, _ => false);
    }

    /** on_activate's loop over the modules, as far as slave_info_ goes. */
    method AddSlaves(configured: seq<bool>)
      modifies this`infos
      ensures Value() == Activated(old(Value()), configured)
    {
      for m := 0 to |configured|
        invariant infos == old(infos) + Joined(configured, m)
      {
        if configured[m] {
          infos := infos + [Info(m, false)];
        }
      }
    }

    /** anySlaveOperational. */
    method AnySlaveOperational() returns (any: bool)
      ensures any == AnyOperational(Operational(infos))
      ensures any <==> exists i | 0 <= i < |infos| :: infos[i].operational
    {
      ghost var all := Operational(infos);
      for i := 0 to |infos|
        invariant AnyOperational(all) == AnyOperational(all[i..])
        invariant forall k | 0 <= k < i :: !infos[k].operational
      {
        if infos[i].operational {
          return true;
        }
        assert all[i..][1..] == all[i + 1..];
      }
      return false;
    }

    /** One element's turn. */
    method CheckSlave(i: nat, operational: bool)
      requires i < |infos| && infos[i].owner < |flags|
      modifies this`infos, this`flags
      ensures infos == old(infos)[i := Info(old(infos)[i].owner, operational)]
      ensures flags == if operational != old(infos)[i].operational then old(flags)[old(infos)[i].owner := operational]
                       else old(flags)
    {
      if operational != infos[i].operational {
        flags := flags[infos[i].owner := operational];
      }
      infos := infos[i := Info(infos[i].owner, operational)];
    }

    /** checkSlaveStates. */
    method CheckSlaveStates(report: seq<bool>)
      requires Valid(Value()) && |report| == |infos|
      modifies this`infos, this`flags
      ensures infos == Noted(old(infos), report)
      ensures flags == Told(old(flags), old(infos), report, |report|)
    {
      ghost var before := infos;
      for i := 0 to |report|
        invariant |infos| == |before| && |flags| == |old(flags)|
        invariant forall k | 0 <= k < |infos| ::
                    infos[k] == if k < i then Info(before[k].owner, report[k]) else before[k]
        invariant flags == Told(old(flags), before, report, i)
      {
        CheckSlave(i, report[i]);
      }
    }

    /** The receiving half of update and readData. */
    method Receive(report: BusCache)
      requires Valid(Value()) && Matches(Value(), report)
      modifies this
      ensures Value() == ReceiveStep(old(Value()), report)
    {
      if counter % CHECK_STATE_FREQUENCY == 0 {
        linkUp, responding := report.linkUp, report.slavesResponding;
        CheckSlaveStates(report.operational);
      }
      counter := counter + 1;
    }

    /** isAllInit. */
    method AllInitialized() returns (all: bool)
      ensures all == AllUp(flags)
    {
      all := true;
      for m := 0 to |flags|
        invariant all == AllUp(flags[..m])
      {
        assert flags[..m + 1] == flags[..m] + [flags[m]];
        all := all && flags[m];
      }
      assert flags[..|flags|] == flags;
    }

    method StartUpCycle(ghost b: Bus, reports: nat -> BusCache, n: nat) returns (all: bool)
      requires Valid(b) && AllMatch(b, reports) && Value() == After(b, reports, n)
      modifies this
      ensures Value() == After(b, reports, n + 1) && all == AllUp(After(b, reports, n + 1).flags)
    {
      assert Matches(b, reports(n));
      Receive(reports(n));
      all := AllInitialized();
    }

    /** on_activate's waiting loop; limit is the cycle after which the timeout is found to have passed, and
        then it fails even if that cycle brought the last module up. */
    method WaitForModules(reports: nat -> BusCache, limit: nat) returns (up: bool, cycles: nat)
      requires Valid(Value()) && AllMatch(Value(), reports)
      modifies this
      ensures Value() == After(old(Value()), reports, cycles)
      ensures up ==> 0 < cycles <= limit && EndsAt(old(Value()), reports, cycles - 1)
      ensures !up ==> cycles == limit + 1 && forall t: nat | t < limit :: !EndsAt(old(Value()), reports, t)
    {
      ghost var b := Value();
      cycles := 0;
      var running := true;
      while running
        invariant cycles <= limit && Value() == After(b, reports, cycles)
        invariant !running ==> 0 < cycles && EndsAt(b, reports, cycles - 1)
        invariant running ==> forall n: nat | 1 <= n <= cycles :: !AllUp(After(b, reports, n).flags)
        decreases running, limit - cycles
      {
        var all := StartUpCycle(b, reports, cycles);
        cycles := cycles + 1;
        if all {
          running := false;
        }
        if cycles > limit {
          return false, cycles;
        }
      }
      up := true;
    }
  }
}

/** Writing the hand registers: retries, re-initialisation between attempts, fallback from the
    rm_driver topics to the SDK. */
module HandWrite {
  import opened HandCodec
  import opened Names

  datatype Backend = Auto | RmDriver | Sdk

  /** What comes back on the rm_driver result topic before the timeout. */
  datatype Reply = Ack | Nack | Timeout

  datatype Config = Config(
    retries: int, doReinit: bool, mode: PackMode, order: PairOrder, hasPublisher: bool, hasRs485: bool,
    maxJointRad: real, echoJointStates: bool)

  /** The answers to one write call, by attempt: rm_driver replies, SDK return codes, and which of the
      three calls of a SDK re-initialisation raises (none if three or more).  armStarts says whether
      starting the SDK would work. */
  datatype World = World(position: nat -> Reply, code: nat -> int, raises: nat -> nat, armStarts: bool)

  datatype Event =
    | Attempt(backend: Backend, sent: bool, acked: bool, data: seq<int>, num: nat)
    | Rs485
    | RmInit(sent: bool)
    | SdkClose
    | SdkSet
    | SdkInit
    | StartArm(ok: bool)
    | Pause

  /** The result of a call: a code, or an exception. */
  datatype Outcome = Returned(code: int) | Raised

  function Retries(c: Config): nat {
    if c.retries < 0 then 0 else c.retries
  }

  // ------------------------------------------------------------------ single steps

  function ReplyCode(c: Config, reply: Reply): int {
    if !c.hasPublisher then -20
    else match reply case Timeout => -21 case Ack => 0 case Nack => -22
  }

  function RmAttempt(c: Config, w: World, adjusted: seq<int>, k: nat): Event {
    var p := Pack(adjusted, c.mode, c.order);
    Attempt(RmDriver, c.hasPublisher, c.hasPublisher && w.position(k).Ack?, p.data, p.num)
  }

  function SdkAttempt(w: World, adjusted: seq<int>, k: nat): Event {
    Attempt(Sdk, true, w.code(k) == 0, adjusted, 3)
  }

  function RmReinit(c: Config): seq<Event> {
    (if c.hasRs485 then [Rs485] else []) + [RmInit(c.hasPublisher)]
  }

  /** The calls made by a SDK re-initialisation, up to and with the one that raises. */
  function SdkReinit(raises: nat): seq<Event> {
    if raises == 0 then [SdkClose] else if raises == 1 then [SdkClose, SdkSet] else [SdkClose, SdkSet, SdkInit]
  }

  // ------------------------------------------------------------------ the loops

  function RmSetup(c: Config): seq<Event> {
    if c.doReinit then RmReinit(c) + [Pause] else []
  }

  /** The attempts from the k-th on: their events and the last return value. */
  function RmLoop(c: Config, w: World, adjusted: seq<int>, k: nat): (r: (seq<Event>, int))
    requires k <= Retries(c)
    decreases Retries(c) - k
  {
    var ret := ReplyCode(c, w.position(k));
    var tried := [RmAttempt(c, w, adjusted, k)];
    if ret == 0 || k == Retries(c) then (tried, ret)
    else
      var rest := RmLoop(c, w, adjusted, k + 1);
      (tried + RmSetup(c) + rest.0, rest.1)
  }

  function SdkSetup(c: Config, w: World, k: nat): seq<Event> {
    (if c.doReinit then SdkReinit(w.raises(k)) else []) + [Pause]
  }

  function SdkLoop(c: Config, w: World, adjusted: seq<int>, k: nat): (r: (seq<Event>, int))
    requires k <= Retries(c)
    decreases Retries(c) - k
  {
    var tried := [SdkAttempt(w, adjusted, k)];
    if w.code(k) == 0 || k == Retries(c) then (tried, w.code(k))
    else
      var rest := SdkLoop(c, w, adjusted, k + 1);
      (tried + SdkSetup(c, w, k) + rest.0, rest.1)
  }

  /** _write_hand_registers_sdk. */
  function SdkWrite(c: Config, w: World, armReady: bool, adjusted: seq<int>): (seq<Event>, Outcome) {
    if !armReady && !w.armStarts then ([StartArm(false)], Raised)
    else
      var loop := SdkLoop(c, w, adjusted, 0);
      ((if armReady then [] else [StartArm(true)]) + loop.0, Returned(loop.1))
  }

  /** _write_hand_registers. */
  function Write(c: Config, w: World, backend: Backend, armReady: bool, adjusted: seq<int>): (seq<Event>, Outcome) {
    if backend.Sdk? then SdkWrite(c, w, armReady, adjusted)
    else
      var rm := RmLoop(c, w, adjusted, 0);
      if rm.1 == 0 || backend.RmDriver? then (rm.0, Returned(rm.1))
      else
        var sdk := SdkWrite(c, w, armReady, adjusted);
        (rm.0 + sdk.0, sdk.1)
  }

  /** Whether the SDK is up afterwards: a write that comes to the SDK starts it if it can. */
  predicate ArmAfter(c: Config, w: World, backend: Backend, armReady: bool, adjusted: seq<int>) {
    armReady || (w.armStarts && (backend.Sdk? || (backend.Auto? && RmLoop(c, w, adjusted, 0).1 != 0)))
  }

  // ------------------------------------------------------------------ reading a trace

  /** The attempts among the events. */
  function Attempts(trace: seq<Event>): seq<Event> {
    if |trace| == 0 then []
    else if trace[0].Attempt? then [trace[0]] + Attempts(trace[1..])
    else Attempts(trace[1..])
  }

  lemma {:induction false} AttemptsAdd(s: seq<Event>, t: seq<Event>)
    ensures Attempts(s + t) == Attempts(s) + Attempts(t)
  {
    if |s| == 0 {
      assert s + t == t;
    } else {
      AttemptsAdd(s[1..], t);
      assert (s + t)[0] == s[0] && (s + t)[1..] == s[1..] + t;
      if s[0].Attempt? {
        assert [s[0]] + (Attempts(s[1..]) + Attempts(t)) == [s[0]] + Attempts(s[1..]) + Attempts(t);
      }
    }
  }

  lemma AttemptsNone(t: seq<Event>)
    requires forall i | 0 <= i < |t| :: !t[i].Attempt?
    ensures Attempts(t) == []
  {
  }

  /** A run of attempts of one backend: at most n of them, all but the last refused. */
  predicate Tries(t: seq<Event>, backend: Backend, n: nat) {
    && 1 <= |t| <= n
    && (forall i | 0 <= i < |t| :: t[i].Attempt? && t[i].backend == backend)
    && (forall i | 0 <= i < |t| - 1 :: !t[i].acked)
  }

  /** No event but an attempt stands at either end. */
  predicate Bracketed(t: seq<Event>) {
    |t| > 0 && t[0].Attempt? && t[|t| - 1].Attempt?
  }

  predicate AckedBy(c: Config, w: World, k: nat) {
    ReplyCode(c, w.position(k)) == 0
  }

  predicate SdkSucceeds(w: World, k: nat) {
    w.code(k) == 0
  }

  lemma AttemptsCons(e: Event, rest: seq<Event>)
    requires e.Attempt?
    ensures Attempts([e] + rest) == [e] + Attempts(rest)
  {
    assert ([e] + rest)[1..] == rest;
  }

  lemma Associate(a: seq<Event>, b: seq<Event>, c: seq<Event>)
    ensures a + b + c == a + (b + c)
  {
  }

  lemma AttemptsAfter(setup: seq<Event>, rest: seq<Event>)
    requires forall i | 0 <= i < |setup| :: !setup[i].Attempt?
    ensures Attempts(setup + rest) == Attempts(rest)
  {
    AttemptsNone(setup);
    AttemptsAdd(setup, rest);
  }

  lemma AttemptsOneMore(e: Event, setup: seq<Event>, rest: seq<Event>)
    requires e.Attempt?
    requires forall i | 0 <= i < |setup| :: !setup[i].Attempt?
    ensures Attempts([e] + setup + rest) == [e] + Attempts(rest)
  {
    AttemptsAfter(setup, rest);
    AttemptsCons(e, setup + rest);
    Associate([e], setup, rest);
  }

  lemma TriesOneMore(e: Event, tries: seq<Event>, backend: Backend, n: nat)
    requires e.Attempt? && e.backend == backend && !e.acked && Tries(tries, backend, n)
    ensures Tries([e] + tries, backend, n + 1)
  {
  }

  /** A refused attempt and some setup before a run of attempts make a longer run. */
  lemma OneMore(e: Event, setup: seq<Event>, rest: seq<Event>, backend: Backend, n: nat)
    requires e.Attempt? && e.backend == backend && !e.acked
    requires forall i | 0 <= i < |setup| :: !setup[i].Attempt?
    requires Bracketed(rest) && Tries(Attempts(rest), backend, n)
    ensures Bracketed([e] + setup + rest)
    ensures Attempts([e] + setup + rest) == [e] + Attempts(rest)
    ensures Tries([e] + Attempts(rest), backend, n + 1)
  {
    AttemptsOneMore(e, setup, rest);
    TriesOneMore(e, Attempts(rest), backend, n);
  }

  /** The result r of a loop tells the last attempt apart, and a failure used all n attempts. */
  predicate Faithful(loop: (seq<Event>, int), backend: Backend, n: nat) {
    var tries := Attempts(loop.0);
    && Bracketed(loop.0)
    && Tries(tries, backend, n)
    && (loop.1 == 0 <==> tries[|tries| - 1].acked)
    && (loop.1 != 0 ==> |tries| == n)
  }

  lemma SingleAttempt(e: Event)
    requires e.Attempt?
    ensures Attempts([e]) == [e]
  {
    assert [e][1..] == [];
  }

  /** The rm_driver loop stops at its first acknowledged write or after retries + 1 attempts; setup
      messages only stand between attempts. */
  lemma {:induction false} RmLoopTries(c: Config, w: World, adjusted: seq<int>, k: nat)
    requires k <= Retries(c)
    ensures Faithful(RmLoop(c, w, adjusted, k), RmDriver, Retries(c) + 1 - k)
    decreases Retries(c) - k
  {
    var e := RmAttempt(c, w, adjusted, k);
    SingleAttempt(e);
    if ReplyCode(c, w.position(k)) != 0 && k < Retries(c) {
      RmLoopTries(c, w, adjusted, k + 1);
      OneMore(e, RmSetup(c), RmLoop(c, w, adjusted, k + 1).0, RmDriver, Retries(c) - k);
    }
  }

  lemma {:induction false} SdkLoopTries(c: Config, w: World, adjusted: seq<int>, k: nat)
    requires k <= Retries(c)
    ensures Faithful(SdkLoop(c, w, adjusted, k), Sdk, Retries(c) + 1 - k)
    decreases Retries(c) - k
  {
    var e := SdkAttempt(w, adjusted, k);
    SingleAttempt(e);
    if w.code(k) != 0 && k < Retries(c) {
      SdkLoopTries(c, w, adjusted, k + 1);
      OneMore(e, SdkSetup(c, w, k), SdkLoop(c, w, adjusted, k + 1).0, Sdk, Retries(c) - k);
    }
  }

  /** A loop succeeds exactly if one of the attempts it may make would be acknowledged. */
  lemma {:induction false} RmLoopSucceedsIff(c: Config, w: World, adjusted: seq<int>, k: nat)
    requires k <= Retries(c)
    ensures RmLoop(c, w, adjusted, k).1 == 0 <==> exists i: nat :: k <= i <= Retries(c) && AckedBy(c, w, i)
    decreases Retries(c) - k
  {
    if AckedBy(c, w, k) {
    } else if k < Retries(c) {
      RmLoopSucceedsIff(c, w, adjusted, k + 1);
    }
  }

  lemma {:induction false} SdkLoopSucceedsIff(c: Config, w: World, adjusted: seq<int>, k: nat)
    requires k <= Retries(c)
    ensures SdkLoop(c, w, adjusted, k).1 == 0 <==> exists i: nat :: k <= i <= Retries(c) && SdkSucceeds(w, i)
    decreases Retries(c) - k
  {
    if SdkSucceeds(w, k) {
    } else if k < Retries(c) {
      SdkLoopSucceedsIff(c, w, adjusted, k + 1);
    }
  }

  // ------------------------------------------------------------------ a whole write

  /** The attempts of a whole write split by backend: rm_driver attempts first, then SDK attempts, each
      at most retries + 1, and only the very last one of all may be acknowledged. */
  predicate Disciplined(attempts: seq<Event>, rm: nat, limit: nat) {
    && rm <= |attempts| && rm <= limit && |attempts| - rm <= limit
    && (forall i | 0 <= i < |attempts| :: attempts[i].Attempt?
          && (attempts[i].backend == if i < rm then RmDriver else Sdk))
    && (forall i | 0 <= i < |attempts| - 1 :: !attempts[i].acked)
  }

  lemma SdkWriteTries(c: Config, w: World, armReady: bool, adjusted: seq<int>)
    requires SdkWrite(c, w, armReady, adjusted).1.Returned?
    ensures Attempts(SdkWrite(c, w, armReady, adjusted).0) == Attempts(SdkLoop(c, w, adjusted, 0).0)
  {
    var start := if armReady then [] else [StartArm(true)];
    AttemptsNone(start);
    AttemptsAdd(start, SdkLoop(c, w, adjusted, 0).0);
  }

  lemma OneBackendDisciplined(tries: seq<Event>, backend: Backend, limit: nat)
    requires Tries(tries, backend, limit) && !backend.Auto?
    ensures Disciplined(tries, if backend.RmDriver? then |tries| else 0, limit)
  {
  }

  lemma BothDisciplined(rm: seq<Event>, sdk: seq<Event>, limit: nat)
    requires Tries(rm, RmDriver, limit) && Tries(sdk, Sdk, limit) && !rm[|rm| - 1].acked
    ensures Disciplined(rm + sdk, |rm|, limit)
  {
    var all := rm + sdk;
    assert forall i | |rm| <= i < |all| :: all[i] == sdk[i - |rm|];
  }

  /** The result is 0 exactly if the last position write was acknowledged; no position write follows an
      acknowledged one; each backend gets at most limit; a failure used the most there are. */
  ghost predicate Settles(result: (seq<Event>, Outcome), limit: nat, most: nat) {
    var attempts := Attempts(result.0);
    && result.1.Returned?
    && |attempts| > 0
    && (exists rm :: Disciplined(attempts, rm, limit))
    && attempts[|attempts| - 1].Attempt?
    && (result.1.code == 0 <==> attempts[|attempts| - 1].acked)
    && (result.1.code != 0 ==> |attempts| == most)
  }

  lemma LoopSettles(loop: (seq<Event>, int), backend: Backend, limit: nat)
    requires Faithful(loop, backend, limit) && !backend.Auto?
    ensures Settles((loop.0, Returned(loop.1)), limit, limit)
  {
    OneBackendDisciplined(Attempts(loop.0), backend, limit);
  }

  lemma SdkSettles(c: Config, w: World, armReady: bool, adjusted: seq<int>)
    requires SdkWrite(c, w, armReady, adjusted).1.Returned?
    ensures Settles(SdkWrite(c, w, armReady, adjusted), Retries(c) + 1, Retries(c) + 1)
  {
    SdkLoopTries(c, w, adjusted, 0);
    SdkWriteTries(c, w, armReady, adjusted);
    LoopSettles(SdkLoop(c, w, adjusted, 0), Sdk, Retries(c) + 1);
  }

  lemma BothSettle(rm: (seq<Event>, int), sdk: (seq<Event>, int), trace: seq<Event>, limit: nat)
    requires Faithful(rm, RmDriver, limit) && rm.1 != 0 && Faithful(sdk, Sdk, limit)
    requires Attempts(trace) == Attempts(sdk.0)
    ensures Settles((rm.0 + trace, Returned(sdk.1)), limit, 2 * limit)
  {
    AttemptsAdd(rm.0, trace);
    BothDisciplined(Attempts(rm.0), Attempts(sdk.0), limit);
  }

  /** Every write that returns settles, with retries + 1 attempts for each backend. */
  lemma WriteDisciplined(c: Config, w: World, backend: Backend, armReady: bool, adjusted: seq<int>)
    requires Write(c, w, backend, armReady, adjusted).1.Returned?
    ensures var limit := Retries(c) + 1;
            Settles(Write(c, w, backend, armReady, adjusted), limit, if backend.Auto? then 2 * limit else limit)
  {
    var limit := Retries(c) + 1;
    var rm, sdk := RmLoop(c, w, adjusted, 0), SdkLoop(c, w, adjusted, 0);
    if backend.Sdk? {
      SdkSettles(c, w, armReady, adjusted);
    } else {
      RmLoopTries(c, w, adjusted, 0);
      if rm.1 == 0 || backend.RmDriver? {
        LoopSettles(rm, RmDriver, limit);
      } else {
        SdkLoopTries(c, w, adjusted, 0);
        SdkWriteTries(c, w, armReady, adjusted);
        BothSettle(rm, sdk, SdkWrite(c, w, armReady, adjusted).0, limit);
      }
    }
  }

  /** When a write succeeds, told from the answers alone. */
  lemma WriteSucceedsIff(c: Config, w: World, backend: Backend, armReady: bool, adjusted: seq<int>)
    ensures Write(c, w, backend, armReady, adjusted).1 == Returned(0)
            <==> || (!backend.Sdk? && exists i: nat :: i <= Retries(c) && AckedBy(c, w, i))
                 || (!backend.RmDriver? && (armReady || w.armStarts)
                     && exists i: nat :: i <= Retries(c) && SdkSucceeds(w, i))
  {
    RmLoopSucceedsIff(c, w, adjusted, 0);
    SdkLoopSucceedsIff(c, w, adjusted, 0);
  }

  /** The only exception that leaves a write is a SDK that cannot be started, and no SDK write precedes it. */
  lemma RaisesIff(c: Config, w: World, backend: Backend, armReady: bool, adjusted: seq<int>)
    ensures Write(c, w, backend, armReady, adjusted).1.Raised?
            <==> && !armReady && !w.armStarts && !backend.RmDriver?
                 && (backend.Sdk? || forall i: nat | i <= Retries(c) :: !AckedBy(c, w, i))
  {
    RmLoopSucceedsIff(c, w, adjusted, 0);
  }

  // ------------------------------------------------------------------ every event of a write

  predicate NoAttempt(t: seq<Event>) {
    forall i | 0 <= i < |t| :: !t[i].Attempt?
  }

  /** The events before the first attempt. */
  function Lead(trace: seq<Event>): seq<Event> {
    if |trace| == 0 || trace[0].Attempt? then [] else [trace[0]] + Lead(trace[1..])
  }

  /** For each attempt the events up to the next one. */
  function Gaps(trace: seq<Event>): seq<seq<Event>> {
    if |trace| == 0 then []
    else if trace[0].Attempt? then [Lead(trace[1..])] + Gaps(trace[1..])
    else Gaps(trace[1..])
  }

  lemma {:induction false} SetupLeads(setup: seq<Event>, rest: seq<Event>)
    requires NoAttempt(setup)
    ensures Lead(setup + rest) == setup + Lead(rest) && Gaps(setup + rest) == Gaps(rest)
  {
    if |setup| == 0 {
      assert setup + rest == rest;
    } else {
      SetupLeads(setup[1..], rest);
      assert (setup + rest)[1..] == setup[1..] + rest;
    }
  }

  lemma AttemptSplits(e: Event, rest: seq<Event>)
    requires e.Attempt?
    ensures Lead([e] + rest) == [] && Gaps([e] + rest) == [Lead(rest)] + Gaps(rest)
    ensures Attempts([e] + rest) == [e] + Attempts(rest)
  {
    assert ([e] + rest)[1..] == rest;
  }

  /** An attempt, some setup, and a loop that starts with an attempt. */
  lemma AttemptThen(e: Event, setup: seq<Event>, rest: seq<Event>)
    requires e.Attempt? && NoAttempt(setup) && Lead(rest) == []
    ensures var t := [e] + setup + rest;
            Lead(t) == [] && Gaps(t) == [setup] + Gaps(rest) && Attempts(t) == [e] + Attempts(rest)
  {
    SetupLeads(setup, rest);
    AttemptSplits(e, setup + rest);
    AttemptsOneMore(e, setup, rest);
    Associate([e], setup, rest);
    assert setup + [] == setup;
  }

  lemma AttemptAlone(e: Event)
    requires e.Attempt?
    ensures Lead([e]) == [] && Gaps([e]) == [[]] && Attempts([e]) == [e]
  {
    AttemptSplits(e, []);
    assert [e] + [] == [e];
  }

  /** The attempts of a loop from its k-th on, and what stands between them. */
  predicate SpelledOut(trace: seq<Event>, attempt: nat -> Event, between: nat -> seq<Event>, k: nat) {
    var attempts, gaps := Attempts(trace), Gaps(trace);
    && Lead(trace) == [] && 1 <= |attempts| == |gaps|
    && (forall i: nat | i < |attempts| :: attempts[i] == attempt(k + i))
    && (forall i: nat | i < |attempts| - 1 :: gaps[i] == between(k + i))
    && gaps[|attempts| - 1] == []
  }

  lemma SpelledAlone(attempt: nat -> Event, between: nat -> seq<Event>, k: nat)
    requires attempt(k).Attempt?
    ensures SpelledOut([attempt(k)], attempt, between, k)
  {
    AttemptAlone(attempt(k));
  }

  lemma SpelledNext(rest: seq<Event>, attempt: nat -> Event, between: nat -> seq<Event>, k: nat)
    requires attempt(k).Attempt? && NoAttempt(between(k)) && SpelledOut(rest, attempt, between, k + 1)
    ensures SpelledOut([attempt(k)] + between(k) + rest, attempt, between, k)
  {
    AttemptThen(attempt(k), between(k), rest);
    var attempts, gaps := [attempt(k)] + Attempts(rest), [between(k)] + Gaps(rest);
    forall i: nat | 0 < i < |attempts| ensures attempts[i] == attempt(k + i) {
      assert attempts[i] == Attempts(rest)[i - 1] == attempt(k + 1 + (i - 1));
    }
    forall i: nat | 0 < i < |attempts| - 1 ensures gaps[i] == between(k + i) {
      assert gaps[i] == Gaps(rest)[i - 1] == between(k + 1 + (i - 1));
    }
  }

  /** An rm_driver attempt carries the packed values; before another one the bus is set up again. */
  function RmAttempts(c: Config, w: World, adjusted: seq<int>): nat -> Event {
    var packed := Pack(adjusted, c.mode, c.order);
    (k: nat) =>
      Attempt(RmDriver, c.hasPublisher, c.hasPublisher && w.position(k) == Ack, packed.data, packed.num)
  }

  function RmBetween(c: Config): nat -> seq<Event> {
    (k: nat) =>
      if !c.doReinit then []
      else if c.hasRs485 then [Rs485, RmInit(c.hasPublisher), Pause]
      else [RmInit(c.hasPublisher), Pause]
  }

  /** A SDK attempt carries the values themselves as three registers; before another one the SDK is closed, set
      and initialised again, as far as that does not raise. */
  function SdkAttempts(w: World, adjusted: seq<int>): nat -> Event {
    (k: nat) => Attempt(Sdk, true, w.code(k) == 0, adjusted, 3)
  }

  function SdkBetween(c: Config, w: World): nat -> seq<Event> {
    (k: nat) =>
      if !c.doReinit then [Pause]
      else match w.raises(k)
        case 0 => [SdkClose, Pause]
        case 1 => [SdkClose, SdkSet, Pause]
        case _ => [SdkClose, SdkSet, SdkInit, Pause]
  }

  lemma {:induction false} RmLoopSpelledOut(c: Config, w: World, adjusted: seq<int>, k: nat)
    requires k <= Retries(c)
    ensures SpelledOut(RmLoop(c, w, adjusted, k).0, RmAttempts(c, w, adjusted), RmBetween(c), k)
    decreases Retries(c) - k
  {
    var attempt, between := RmAttempts(c, w, adjusted), RmBetween(c);
    assert attempt(k) == RmAttempt(c, w, adjusted, k) && between(k) == RmSetup(c);
    if ReplyCode(c, w.position(k)) == 0 || k == Retries(c) {
      SpelledAlone(attempt, between, k);
    } else {
      RmLoopSpelledOut(c, w, adjusted, k + 1);
      SpelledNext(RmLoop(c, w, adjusted, k + 1).0, attempt, between, k);
    }
  }

  lemma {:induction false} SdkLoopSpelledOut(c: Config, w: World, adjusted: seq<int>, k: nat)
    requires k <= Retries(c)
    ensures SpelledOut(SdkLoop(c, w, adjusted, k).0, SdkAttempts(w, adjusted), SdkBetween(c, w), k)
    decreases Retries(c) - k
  {
    var attempt, between := SdkAttempts(w, adjusted), SdkBetween(c, w);
    assert attempt(k) == SdkAttempt(w, adjusted, k) && between(k) == SdkSetup(c, w, k);
    if w.code(k) == 0 || k == Retries(c) {
      SpelledAlone(attempt, between, k);
    } else {
      SdkLoopSpelledOut(c, w, adjusted, k + 1);
      SpelledNext(SdkLoop(c, w, adjusted, k + 1).0, attempt, between, k);
    }
  }

  /** The start of the SDK if it was not up, then its attempts. */
  predicate SdkPart(
    part: seq<Event>, c: Config, w: World, armReady: bool, adjusted: seq<int>, sdk: seq<Event>, raised: bool)
  {
    && part == (if armReady then [] else [StartArm(w.armStarts)]) + sdk
    && (raised <==> !armReady && !w.armStarts)
    && if raised then sdk == [] else SpelledOut(sdk, SdkAttempts(w, adjusted), SdkBetween(c, w), 0)
  }

  lemma SdkWriteSpelledOut(c: Config, w: World, armReady: bool, adjusted: seq<int>) returns (sdk: seq<Event>)
    ensures var r := SdkWrite(c, w, armReady, adjusted);
            SdkPart(r.0, c, w, armReady, adjusted, sdk, r.1.Raised?)
  {
    SdkLoopSpelledOut(c, w, adjusted, 0);
    sdk := if !armReady && !w.armStarts then [] else SdkLoop(c, w, adjusted, 0).0;
    assert [StartArm(false)] + [] == [StartArm(false)];
  }

  /** A write's events are those of its rm_driver attempts, unless the backend is the SDK, and then, unless it is
      rm_driver or one of those was acknowledged, those of the SDK. */
  lemma WriteSpelledOut(c: Config, w: World, backend: Backend, armReady: bool, adjusted: seq<int>)
    returns (rm: seq<Event>, rest: seq<Event>, sdk: seq<Event>)
    ensures var (trace, outcome) := Write(c, w, backend, armReady, adjusted);
            && trace == rm + rest
            && (if backend.Sdk? then rm == [] else SpelledOut(rm, RmAttempts(c, w, adjusted), RmBetween(c), 0))
            && (if backend.RmDriver? || (backend.Auto? && exists i: nat :: i <= Retries(c) && AckedBy(c, w, i))
                then rest == [] && !outcome.Raised?
                else SdkPart(rest, c, w, armReady, adjusted, sdk, outcome.Raised?))
  {
    var loop := RmLoop(c, w, adjusted, 0);
    RmLoopSpelledOut(c, w, adjusted, 0);
    RmLoopSucceedsIff(c, w, adjusted, 0);
    sdk := SdkWriteSpelledOut(c, w, armReady, adjusted);
    rm := if backend.Sdk? then [] else loop.0;
    rest := if backend.Sdk? || (backend.Auto? && loop.1 != 0) then SdkWrite(c, w, armReady, adjusted).0 else [];
    assert loop.0 + [] == loop.0 && [] + SdkWrite(c, w, armReady, adjusted).0 == SdkWrite(c, w, armReady, adjusted).0;
  }

  lemma {:induction false} LoopsStartNothing(c: Config, w: World, adjusted: seq<int>, k: nat, ok: bool)
    requires k <= Retries(c)
    ensures StartArm(ok) !in RmLoop(c, w, adjusted, k).0 && StartArm(ok) !in SdkLoop(c, w, adjusted, k).0
    decreases Retries(c) - k
  {
    if k < Retries(c) {
      LoopsStartNothing(c, w, adjusted, k + 1, ok);
    }
  }

  /** The SDK is up after a write exactly if it was before or the write has started it: it is started once and for
      all. */
  lemma StartedIff(c: Config, w: World, backend: Backend, armReady: bool, adjusted: seq<int>)
    ensures ArmAfter(c, w, backend, armReady, adjusted)
            <==> armReady || StartArm(true) in Write(c, w, backend, armReady, adjusted).0
    ensures armReady ==> StartArm(true) !in Write(c, w, backend, armReady, adjusted).0
  {
    LoopsStartNothing(c, w, adjusted, 0, true);
    var trace := Write(c, w, backend, armReady, adjusted).0;
    if !armReady && w.armStarts && (backend.Sdk? || (backend.Auto? && RmLoop(c, w, adjusted, 0).1 != 0)) {
      var at := if backend.Sdk? then 0 else |RmLoop(c, w, adjusted, 0).0|;
      assert trace[at] == StartArm(true);
    }
  }

  lemma {:induction false} RmFailureCode(c: Config, w: World, adjusted: seq<int>, k: nat)
    requires k <= Retries(c) && RmLoop(c, w, adjusted, k).1 != 0
    ensures RmLoop(c, w, adjusted, k).1 == ReplyCode(c, w.position(Retries(c)))
    decreases Retries(c) - k
  {
    if k < Retries(c) {
      RmFailureCode(c, w, adjusted, k + 1);
    }
  }

  lemma {:induction false} SdkFailureCode(c: Config, w: World, adjusted: seq<int>, k: nat)
    requires k <= Retries(c) && SdkLoop(c, w, adjusted, k).1 != 0
    ensures SdkLoop(c, w, adjusted, k).1 == w.code(Retries(c))
    decreases Retries(c) - k
  {
    if k < Retries(c) {
      SdkFailureCode(c, w, adjusted, k + 1);
    }
  }

  /** A failed write reports its last attempt: without a publisher -20, a timeout -21, a refusal -22, or the SDK's
      own code. */
  lemma FailureCode(c: Config, w: World, backend: Backend, armReady: bool, adjusted: seq<int>)
    requires var r := Write(c, w, backend, armReady, adjusted).1; r.Returned? && r.code != 0
    ensures Write(c, w, backend, armReady, adjusted).1.code
            == if !backend.RmDriver? then w.code(Retries(c))
               else if !c.hasPublisher then -20
               else if w.position(Retries(c)).Timeout? then -21
               else -22
  {
    if backend.RmDriver? {
      RmFailureCode(c, w, adjusted, 0);
    } else {
      SdkFailureCode(c, w, adjusted, 0);
    }
  }

  // ------------------------------------------------------------------ trajectories

  const JOINTS: seq<string> := [
    "right_thumb_metacarpal_joint", "right_thumb_proximal_joint", "right_index_proximal_joint",
    "right_middle_proximal_joint", "right_ring_proximal_joint", "right_pinky_proximal_joint"]

  datatype Trajectory = Trajectory(names: seq<string>, points: seq<seq<real>>)

  datatype Topic = CommandState | JointStates

  datatype Message = Message(topic: Topic, positions: seq<real>)

  datatype Plan = Refused(code: int) | Accepted(rads: seq<real>)

  predicate Listed(names: seq<string>, wanted: seq<string>, j: nat)
    requires j <= |wanted|
  {
    forall i | 0 <= i < j :: wanted[i] in names
  }

  /** The angles of the first j joints. */
  function Picked(names: seq<string>, positions: seq<real>, wanted: seq<string>, j: nat): (r: seq<real>)
    requires j <= |wanted| && |positions| == |names| && Listed(names, wanted, j)
    ensures |r| == j
  {
    if j == 0 then []
    else Picked(names, positions, wanted, j - 1) + [positions[LastIndex(names, wanted[j - 1])]]
  }

  /** The six angles a trajectory asks for, in joint order, or why it is ignored. */
  function Asked(traj: Trajectory): (p: Plan)
    ensures p.Accepted? ==> |p.rads| == FINGERS
    ensures p.Refused? ==> -3 <= p.code <= -1
  {
    if |traj.points| == 0 then Refused(-1)
    else
      var last := traj.points[|traj.points| - 1];
      if |last| != |traj.names| then Refused(-2)
      else if !Listed(traj.names, JOINTS, FINGERS) then Refused(-3)
      else Accepted(Picked(traj.names, last, JOINTS, FINGERS))
  }

  lemma {:induction false} PickedAt(names: seq<string>, positions: seq<real>, wanted: seq<string>, j: nat, i: nat)
    requires j <= |wanted| && |positions| == |names| && Listed(names, wanted, j) && i < j
    ensures Picked(names, positions, wanted, j)[i] == positions[LastIndex(names, wanted[i])]
  {
    if i < j - 1 {
      PickedAt(names, positions, wanted, j - 1, i);
    }
  }

  /** A trajectory is refused with -1 without points, with -2 if its last point does not fit its names, with -3 if it
      lacks a joint; otherwise each joint gets the last point's value where it was last named. */
  lemma AskedMeans(traj: Trajectory, i: nat)
    requires i < FINGERS
    ensures var n, asked := |traj.points|, Asked(traj);
            && (asked == Refused(-1) <==> n == 0)
            && (asked == Refused(-2) <==> n > 0 && |traj.points[n - 1]| != |traj.names|)
            && (asked == Refused(-3)
                <==> n > 0 && |traj.points[n - 1]| == |traj.names|
                     && exists k: nat :: k < 6 && JOINTS[k] !in traj.names)
            && (asked.Accepted? ==>
                  n > 0 && |traj.points[n - 1]| == |traj.names| && JOINTS[i] in traj.names
                  && asked.rads[i] == traj.points[n - 1][LastIndex(traj.names, JOINTS[i])])
  {
    if Asked(traj).Accepted? {
      PickedAt(traj.names, traj.points[|traj.points| - 1], JOINTS, FINGERS, i);
    }
  }

  function Wanted(traj: Trajectory): (rads: seq<real>)
    ensures |rads| == FINGERS
  {
    if Asked(traj).Accepted? then Asked(traj).rads else [0.0, 0.0, 0.0, 0.0, 0.0, 0.0]
  }

  datatype GoalError = INVALID_GOAL | PATH_TOLERANCE_VIOLATED

  /** How an action ends: by its one succeed or abort call, or by an exception before any. */
  datatype ActionResult = Succeeded | Aborted(error: GoalError) | Escaped

  function Echoes(c: Config, rads: seq<real>): (r: seq<Message>)
    ensures |r| == (if c.echoJointStates then 2 else 1) && r[0] == Message(CommandState, rads)
    ensures c.echoJointStates ==> r[1] == Message(JointStates, rads)
  {
    [Message(CommandState, rads)] + if c.echoJointStates then [Message(JointStates, rads)] else []
  }

  class HandBridge {
    const config: Config
    var handBackend: Backend
    var armReady: bool
    var lastCommand: seq<real>
    var published: seq<Message>
    var trace: seq<Event>

    constructor (config: Config, backend: Backend, armReady: bool)
      ensures this.config == config && handBackend == backend && this.armReady == armReady
      ensures lastCommand == [0.0, 0.0, 0.0, 0.0, 0.0, 0.0] && published == [] && trace == []
    {
      this.config, handBackend, this.armReady := config, backend, armReady;
      lastCommand, published, trace := [0.0, 0.0, 0.0, 0.0, 0.0, 0.0], [], [];
    }

    /** _write_rm_driver_registers with the position register. */
    method WriteRmDriver(data: seq<int>, num: nat, reply: Reply) returns (ret: int)
      modifies this`trace
      ensures ret == ReplyCode(config, reply)
      ensures trace == old(trace)
                       + [Attempt(RmDriver, config.hasPublisher, config.hasPublisher && reply.Ack?, data, num)]
    {
      trace := trace + [Attempt(RmDriver, config.hasPublisher, config.hasPublisher && reply.Ack?, data, num)];
      if !config.hasPublisher {
        return -20;
      }
      if reply.Timeout? {
        return -21;
      }
      ret := if reply.Ack? then 0 else -22;
    }

    /** _reinit_modbus: by the backend of the moment. */
    method ReinitModbus(raises: nat) returns (raised: bool)
      modifies this`trace
      ensures handBackend.Sdk? ==> trace == old(trace) + SdkReinit(raises) && raised == (raises < 3)
      ensures !handBackend.Sdk? ==> trace == old(trace) + RmReinit(config) && !raised
    {
      if handBackend.Auto? || handBackend.RmDriver? {
        if config.hasRs485 {
          trace := trace + [Rs485];
        }
        trace := trace + [RmInit(config.hasPublisher)];
        return false;
      }
      trace := trace + [SdkClose];
      if raises == 0 {
        return true;
      }
      trace := trace + [SdkSet];
      if raises == 1 {
        return true;
      }
      trace := trace + [SdkInit];
      raised := raises == 2;
    }

    /** The re-initialisation inside the SDK loop: the backend is "sdk" while it runs, and what it was
        afterwards, raised or not. */
    method ReinitAsSdk(raises: nat)
      modifies this`trace, this`handBackend
      ensures trace == old(trace) + SdkReinit(raises)
      ensures handBackend == old(handBackend)
    {
      var original := handBackend;
      handBackend := Sdk;
      var _ := ReinitModbus(raises);
      handBackend := original;
    }

    method PrepareRetry(w: World, attempt: nat, retries: nat)
      modifies this`trace, this`handBackend
      ensures handBackend == old(handBackend)
      ensures attempt < retries ==> trace == old(trace) + SdkSetup(config, w, attempt)
      ensures attempt >= retries ==> trace == old(trace)
    {
      if config.doReinit && attempt < retries {
        ReinitAsSdk(w.raises(attempt));
      }
      if attempt < retries {
        trace := trace + [Pause];
      }
    }

    method TrySdk(w: World, adjusted: seq<int>, attempt: nat, ghost goal: (seq<Event>, int)) returns (code: int)
      requires attempt <= Retries(config)
      requires (trace + SdkLoop(config, w, adjusted, attempt).0, SdkLoop(config, w, adjusted, attempt).1) == goal
      modifies this`trace, this`handBackend
      ensures handBackend == old(handBackend)
      ensures code == 0 || attempt == Retries(config) ==> (trace, code) == goal
      ensures code != 0 && attempt < Retries(config) ==>
                goal == (trace + SdkLoop(config, w, adjusted, attempt + 1).0,
                         SdkLoop(config, w, adjusted, attempt + 1).1)
    {
      code := w.code(attempt);
      trace := trace + [Attempt(Sdk, true, code == 0, adjusted, 3)];
      if code != 0 && attempt < Retries(config) {
        ghost var tried, setup := [SdkAttempt(w, adjusted, attempt)], SdkSetup(config, w, attempt);
        Associate(old(trace), tried + setup, SdkLoop(config, w, adjusted, attempt + 1).0);
        Associate(old(trace), tried, setup);
      }
      if code != 0 {
        PrepareRetry(w, attempt, Retries(config));
      }
    }

    method RunSdkLoop(w: World, adjusted: seq<int>) returns (code: int)
      modifies this`trace, this`handBackend
      ensures handBackend == old(handBackend)
      ensures (trace, code) == (old(trace) + SdkLoop(config, w, adjusted, 0).0, SdkLoop(config, w, adjusted, 0).1)
    {
      var retries := Retries(config);
      ghost var goal := (trace + SdkLoop(config, w, adjusted, 0).0, SdkLoop(config, w, adjusted, 0).1);
      code := -1;
      for attempt := 0 to retries + 1
        invariant handBackend == old(handBackend)
        invariant attempt <= retries ==>
                    (trace + SdkLoop(config, w, adjusted, attempt).0, SdkLoop(config, w, adjusted, attempt).1) == goal
        invariant attempt == retries + 1 ==> (trace, code) == goal
      {
        code := TrySdk(w, adjusted, attempt, goal);
        if code == 0 {
          return;
        }
      }
    }

    method WriteSdk(w: World, adjusted: seq<int>) returns (r: Outcome)
      modifies this`trace, this`handBackend, this`armReady
      ensures handBackend == old(handBackend)
      ensures (trace, r) == (old(trace) + SdkWrite(config, w, old(armReady), adjusted).0,
                             SdkWrite(config, w, old(armReady), adjusted).1)
      ensures armReady == (old(armReady) || w.armStarts)
    {
      ghost var before, ready := trace, armReady;
      if !armReady {
        trace := trace + [StartArm(w.armStarts)];
        if !w.armStarts {
          return Raised;
        }
        armReady := true;
      }
      ghost var loop := SdkLoop(config, w, adjusted, 0).0;
      assert before + [StartArm(true)] + loop == before + ([StartArm(true)] + loop);
      assert before + ([] + loop) == before + loop;
      var code := RunSdkLoop(w, adjusted);
      r := Returned(code);
    }

    method PrepareRmRetry(attempt: nat, retries: nat)
      requires !handBackend.Sdk?
      modifies this`trace
      ensures attempt < retries ==> trace == old(trace) + RmSetup(config)
      ensures attempt >= retries ==> trace == old(trace)
    {
      if config.doReinit && attempt < retries {
        var _ := ReinitModbus(3);
        trace := trace + [Pause];
      }
    }

    /** One turn on the way to a trace and a return value. */
    method TryRm(w: World, adjusted: seq<int>, attempt: nat, ghost goal: (seq<Event>, int)) returns (ret: int)
      requires !handBackend.Sdk? && attempt <= Retries(config)
      requires (trace + RmLoop(config, w, adjusted, attempt).0, RmLoop(config, w, adjusted, attempt).1) == goal
      modifies this`trace
      ensures ret == 0 || attempt == Retries(config) ==> (trace, ret) == goal
      ensures ret != 0 && attempt < Retries(config) ==>
                (trace + RmLoop(config, w, adjusted, attempt + 1).0, RmLoop(config, w, adjusted, attempt + 1).1) == goal
    {
      var data, num := PackRegisters(adjusted, config.mode, config.order);
      ret := WriteRmDriver(data, num, w.position(attempt));
      if ret != 0 && attempt < Retries(config) {
        ghost var tried, rest := [RmAttempt(config, w, adjusted, attempt)], RmLoop(config, w, adjusted, attempt + 1).0;
        Associate(old(trace), tried + RmSetup(config), rest);
        Associate(old(trace), tried, RmSetup(config));
      }
      if ret != 0 {
        PrepareRmRetry(attempt, Retries(config));
      }
    }

    method RunRmLoop(w: World, adjusted: seq<int>) returns (ret: int)
      requires !handBackend.Sdk?
      modifies this`trace
      ensures (trace, ret) == (old(trace) + RmLoop(config, w, adjusted, 0).0, RmLoop(config, w, adjusted, 0).1)
    {
      var retries := Retries(config);
      ghost var goal := (trace + RmLoop(config, w, adjusted, 0).0, RmLoop(config, w, adjusted, 0).1);
      ret := -1;
      for attempt := 0 to retries + 1
        invariant attempt <= retries ==>
                    (trace + RmLoop(config, w, adjusted, attempt).0, RmLoop(config, w, adjusted, attempt).1) == goal
        invariant attempt == retries + 1 ==> (trace, ret) == goal
      {
        ret := TryRm(w, adjusted, attempt, goal);
        if ret == 0 {
          return;
        }
      }
    }

    /** _write_hand_registers: the backend is the same afterwards, whatever happened. */
    method WriteHand(w: World, adjusted: seq<int>) returns (r: Outcome)
      modifies this`trace, this`handBackend, this`armReady
      ensures handBackend == old(handBackend)
      ensures (trace, r) == (old(trace) + Write(config, w, handBackend, old(armReady), adjusted).0,
                             Write(config, w, handBackend, old(armReady), adjusted).1)
      ensures armReady == ArmAfter(config, w, handBackend, old(armReady), adjusted)
    {
      if handBackend.Auto? || handBackend.RmDriver? {
        var ret := RunRmLoop(w, adjusted);
        if ret == 0 {
          return Returned(0);
        }
        if handBackend.RmDriver? {
          return Returned(ret);
        }
        ghost var rm, sdk := RmLoop(config, w, adjusted, 0).0, SdkWrite(config, w, armReady, adjusted).0;
        assert old(trace) + rm + sdk == old(trace) + (rm + sdk);
        r := WriteSdk(w, adjusted);
        return;
      }
      r := WriteSdk(w, adjusted);
    }

    static method Find(ghost names: seq<string>, positions: seq<real>, index: map<string, nat>, name: string)
      returns (found: bool, position: real)
      requires |positions| == |names| && Indexes(index, names)
      ensures found <==> name in names
      ensures found ==> position == positions[LastIndex(names, name)]
    {
      found := name in index;
      position := if found then positions[index[name]] else 0.0;
    }

    /** target_map and the loop over joint_order. */
    method Order(names: seq<string>, positions: seq<real>, wanted: seq<string>)
      returns (rads: seq<real>, percents: seq<Percent>, missing: bool)
      requires |positions| == |names|
      ensures missing <==> !Listed(names, wanted, |wanted|)
      ensures !missing ==> rads == Picked(names, positions, wanted, |wanted|)
      ensures !missing ==> percents == Percents(rads, config.maxJointRad)
    {
      var index := BuildIndex(names);
      rads, percents, missing := [], [], false;
      for j := 0 to |wanted|
        invariant missing <==> !Listed(names, wanted, j)
        invariant !missing ==> rads == Picked(names, positions, wanted, j)
        invariant !missing ==> percents == Percents(rads, config.maxJointRad)
      {
        var found, rad := Find(names, positions, index, wanted[j]);
        if !found {
          missing := true;
        } else {
          PercentsPush(rads, rad, config.maxJointRad);
          rads, percents := rads + [rad], percents + [RadToPercent(rad, config.maxJointRad)];
        }
      }
    }

    method Remember(rads: seq<real>)
      modifies this`lastCommand, this`published
      ensures lastCommand == rads && published == old(published) + Echoes(config, rads)
    {
      lastCommand := rads;
      published := published + [Message(CommandState, rads)];
      if config.echoJointStates {
        published := published + [Message(JointStates, rads)];
      }
    }

    /** on_trajectory: only the last point counts; the command is remembered and published exactly if the
        hand acknowledged it. */
    method OnTrajectory(traj: Trajectory, w: World) returns (r: Outcome)
      modifies this
      ensures handBackend == old(handBackend)
      ensures var asked := Asked(traj);
              if asked.Refused? then r == Returned(asked.code) && trace == old(trace) && armReady == old(armReady)
              else
                var adjusted := Remap(Percents(asked.rads, config.maxJointRad));
                var write := Write(config, w, handBackend, old(armReady), adjusted);
                && r == write.1 && trace == old(trace) + write.0
                && armReady == ArmAfter(config, w, handBackend, old(armReady), adjusted)
      ensures var done := Asked(traj).Accepted? && r == Returned(0);
              && lastCommand == (if done then Asked(traj).rads else old(lastCommand))
              && published == old(published) + if done then Echoes(config, Asked(traj).rads) else []
    {
      if |traj.points| == 0 {
        return Returned(-1);
      }
      if |traj.points[|traj.points| - 1]| != |traj.names| {
        return Returned(-2);
      }
      var rads, percents, missing := Order(traj.names, traj.points[|traj.points| - 1], JOINTS);
      if missing {
        return Returned(-3);
      }
      r := WriteHand(w, Remap(percents));
      if r == Returned(0) {
        Remember(rads);
      }
    }

    /** execute_hand_trajectory: one terminal call, succeed exactly for an acknowledged command; after an
        acknowledged command it waits until the last point's time. */
    method ExecuteHand(traj: Trajectory, endTime: real, w: World) returns (r: ActionResult, slept: real)
      modifies this
      ensures handBackend == old(handBackend)
      ensures var adjusted := Remap(Percents(Wanted(traj), config.maxJointRad));
              var write := Write(config, w, handBackend, old(armReady), adjusted);
              && r == (if |traj.points| == 0 then Aborted(INVALID_GOAL)
                       else if Asked(traj).Refused? then Aborted(PATH_TOLERANCE_VIOLATED)
                       else if write.1.Raised? then Escaped
                       else if write.1.code == 0 then Succeeded
                       else Aborted(PATH_TOLERANCE_VIOLATED))
              && trace == old(trace) + if Asked(traj).Refused? then [] else write.0
      ensures slept == if r.Succeeded? && endTime > 0.0 then endTime else 0.0
      ensures published == old(published) + if r.Succeeded? then Echoes(config, Asked(traj).rads) else []
      ensures lastCommand == if r.Succeeded? then Asked(traj).rads else old(lastCommand)
    {
      slept := 0.0;
      if |traj.points| == 0 {
        return Aborted(INVALID_GOAL), slept;
      }
      var ret := OnTrajectory(traj, w);
      if ret.Raised? {
        return Escaped, slept;
      }
      if ret.code != 0 {
        return Aborted(PATH_TOLERANCE_VIOLATED), slept;
      }
      if endTime > 0.0 {
        slept := endTime;
      }
      r := Succeeded;
    }
  }
}

/** The arm pose sequence tool: inverse kinematics, the jump guard, and what is sent step by step. */
module PoseSequence {
  import opened Names
  import opened Numbers
  import opened Poses
  import opened Wrappers

  const SUCCESS := 1

  datatype JointLists = JointLists(names: seq<string>, positions: seq<real>)

  type JointState = s: JointLists | |s.names| == |s.positions| witness JointLists([], [])

  /** _arm_only_joint_state, and what _joint_positions reads if it does not raise. */
  function ArmOnly(js: JointState): Option<Pose> {
    if Complete(js.names) then Some(PoseOf(js.names, js.positions)) else None
  }

  function Delta(a: Pose, b: Pose): real {
    MaxDelta(b, a, DOF)
  }

  // ------------------------------------------------------------------ inverse kinematics

  /** A reply of the IK service to one request. */
  datatype Reply = NoReply | Failed(code: int) | Solved(solution: JointState)

  datatype Error =
    | ServiceUnavailable | IkTimeout | IkFailed(code: int) | MissingJoint | JumpTooLarge | NoOrientation
    | ServerUnavailable | SendTimeout | GoalRejected | ExecutionFailed | BadHandPositions

  datatype Result<T> = Ok(value: T) | Err(error: Error)

  function Attempts(ikAttempts: int): (n: nat)
    ensures n >= 1 && n >= ikAttempts && (n == 1 || n == ikAttempts)
  {
    if ikAttempts < 1 then 1 else ikAttempts
  }

  /** The nearest solution so far with its pose, the last error code seen, and whether comparing raised. */
  datatype Scan = Scan(best: Option<(JointState, Pose)>, lastCode: Option<int>, raised: bool)

  function Note(s: Scan, seed: Pose, reply: Reply): Scan {
    if s.raised then s
    else match reply
      case NoReply => s
      case Failed(code) => s.(lastCode := Some(code))
      case Solved(js) =>
        var arm := ArmOnly(js);
        if arm.None? then s.(raised := true)
        else
          var nearer := s.best.None? || Delta(arm.value, seed) < Delta(s.best.value.1, seed);
          Scan(if nearer then Some((js, arm.value)) else s.best, Some(SUCCESS), false)
  }

  /** The replies to the requests first to first + n - 1, read in order. */
  function ScanFrom(s: Scan, seed: Pose, reply: nat -> Reply, first: nat, n: nat): Scan {
    if n == 0 then s else Note(ScanFrom(s, seed, reply, first, n - 1), seed, reply(first + n - 1))
  }

  function FirstSolved(reply: nat -> Reply, k: nat, n: nat): (r: nat)
    requires k <= n
    ensures k <= r <= n
    ensures r < n ==> reply(r).Solved?
    ensures forall i: nat | k <= i < r :: !reply(i).Solved?
    decreases n - k
  {
    if k == n || reply(k).Solved? then k else FirstSolved(reply, k + 1, n)
  }

  /** The code of the last failure among the first n replies. */
  function LastCode(reply: nat -> Reply, n: nat): Option<int> {
    if n == 0 then None
    else match reply(n - 1)
      case NoReply => LastCode(reply, n - 1)
      case Failed(code) => Some(code)
      case Solved(_) => Some(SUCCESS)
  }

  function NoSolution(lastCode: Option<int>): Error {
    if lastCode.None? then IkTimeout else IkFailed(lastCode.value)
  }

  /** All requests that may be made: the attempts of each collision mode in turn. */
  function Budget(ikAttempts: int, retry: bool): nat {
    if retry then 2 * Attempts(ikAttempts) else Attempts(ikAttempts)
  }

  function Conclude(s: Scan): Result<JointState> {
    if s.raised then Err(MissingJoint)
    else if s.best.Some? then Ok(s.best.value.0)
    else Err(NoSolution(s.lastCode))
  }

  /** _solve_ik with a seed. */
  function SolveSeeded(seed: Pose, ikAttempts: int, retry: bool, reply: nat -> Reply): Result<JointState> {
    var n := Attempts(ikAttempts);
    var aware := ScanFrom(Scan(None, None, false), seed, reply, 0, n);
    if aware.raised || aware.best.Some? || !retry then Conclude(aware)
    else Conclude(ScanFrom(aware, seed, reply, n, n))
  }

  /** Without a seed the first solution is taken. */
  function SolveUnseeded(ikAttempts: int, retry: bool, reply: nat -> Reply): Result<JointState> {
    var total := Budget(ikAttempts, retry);
    var first := FirstSolved(reply, 0, total);
    if first < total then Ok(reply(first).solution) else Err(NoSolution(LastCode(reply, total)))
  }

  function SolveIk(up: bool, seed: Option<Pose>, ikAttempts: int, retry: bool, reply: nat -> Reply)
    : Result<JointState>
  {
    if !up then Err(ServiceUnavailable)
    else if seed.Some? then SolveSeeded(seed.value, ikAttempts, retry, reply)
    else SolveUnseeded(ikAttempts, retry, reply)
  }

  predicate AnsweredAt(js: JointState, reply: nat -> Reply, k: nat) {
    reply(k) == Solved(js)
  }

  predicate NoNearer(js: JointState, seed: Pose, r: Reply)
    requires ArmOnly(js).Some?
  {
    r.Solved? ==> ArmOnly(r.solution).Some? && Delta(ArmOnly(js).value, seed) <= Delta(ArmOnly(r.solution).value, seed)
  }

  /** A solution among the requests first to last - 1 whose pose is nearest to the seed. */
  ghost predicate Nearest(js: JointState, seed: Pose, reply: nat -> Reply, first: nat, last: nat) {
    && ArmOnly(js).Some?
    && (exists k: nat :: first <= k < last && AnsweredAt(js, reply, k))
    && (forall k: nat | first <= k < last :: NoNearer(js, seed, reply(k)))
  }

  ghost predicate NoneSolved(reply: nat -> Reply, first: nat, last: nat) {
    forall k: nat | first <= k < last :: !reply(k).Solved?
  }

  /** A scan of the requests first to last - 1 that has not raised. */
  ghost predicate Scanned(s: Scan, seed: Pose, reply: nat -> Reply, first: nat, last: nat) {
    && (s.best.None? ==> NoneSolved(reply, first, last))
    && (s.best.Some? ==> ArmOnly(s.best.value.0) == Some(s.best.value.1))
    && (s.best.Some? ==> Nearest(s.best.value.0, seed, reply, first, last))
  }

  lemma ScannedNext(s: Scan, seed: Pose, reply: nat -> Reply, first: nat, last: nat)
    requires first <= last && !s.raised && Scanned(s, seed, reply, first, last)
    requires !Note(s, seed, reply(last)).raised
    ensures Scanned(Note(s, seed, reply(last)), seed, reply, first, last + 1)
  {
    var answer := reply(last);
    var r := Note(s, seed, answer);
    if answer.Solved? {
      assert AnsweredAt(answer.solution, reply, last);
      if s.best.Some? {
        forall k: nat | first <= k < last + 1 ensures NoNearer(r.best.value.0, seed, reply(k)) {
          if k < last {
            assert NoNearer(s.best.value.0, seed, reply(k));
          }
        }
      }
    }
  }

  lemma NoteKeepsRaised(s: Scan, seed: Pose, r: Reply)
    ensures s.raised ==> Note(s, seed, r).raised
  {
  }

  /** Scanning finds a nearest solution, or there is none. */
  lemma {:induction false} ScanFindsNearest(s: Scan, seed: Pose, reply: nat -> Reply, first: nat, n: nat)
    requires s.best.None? && !s.raised && !ScanFrom(s, seed, reply, first, n).raised
    ensures Scanned(ScanFrom(s, seed, reply, first, n), seed, reply, first, first + n)
  {
    if n > 0 {
      var before := ScanFrom(s, seed, reply, first, n - 1);
      NoteKeepsRaised(before, seed, reply(first + n - 1));
      ScanFindsNearest(s, seed, reply, first, n - 1);
      ScannedNext(before, seed, reply, first, first + n - 1);
    }
  }

  /** A scan raises only over a solution that lacks an arm joint. */
  lemma {:induction false} ScanRaises(s: Scan, seed: Pose, reply: nat -> Reply, first: nat, n: nat)
    requires !s.raised
    ensures ScanFrom(s, seed, reply, first, n).raised
            <==> exists k: nat :: first <= k < first + n && reply(k).Solved? && ArmOnly(reply(k).solution).None?
  {
    if n > 0 {
      ScanRaises(s, seed, reply, first, n - 1);
      var last := reply(first + n - 1);
      if last.Solved? && ArmOnly(last.solution).None? {
        assert reply(first + n - 1).Solved? && ArmOnly(reply(first + n - 1).solution).None?;
      }
    }
  }

  /** Given a seed, the solution is the nearest one among the successes of the first collision mode that
      had any, within modes times max(1, attempts) requests. */
  lemma SeededIsNearest(seed: Pose, ikAttempts: int, retry: bool, reply: nat -> Reply)
    requires SolveSeeded(seed, ikAttempts, retry, reply).Ok?
    ensures var js, n := SolveSeeded(seed, ikAttempts, retry, reply).value, Attempts(ikAttempts);
            || Nearest(js, seed, reply, 0, n)
            || (retry && NoneSolved(reply, 0, n) && Nearest(js, seed, reply, n, n + n))
  {
    var n := Attempts(ikAttempts);
    var start := Scan(None, None, false);
    ScanFindsNearest(start, seed, reply, 0, n);
    var aware := ScanFrom(start, seed, reply, 0, n);
    if !aware.raised && aware.best.None? {
      ScanFindsNearest(aware, seed, reply, n, n);
    }
  }

  /** Without a seed the solution is the first one that any request gave. */
  lemma UnseededIsFirst(ikAttempts: int, retry: bool, reply: nat -> Reply) returns (k: nat)
    requires SolveUnseeded(ikAttempts, retry, reply).Ok?
    ensures k < Budget(ikAttempts, retry) && NoneSolved(reply, 0, k)
    ensures AnsweredAt(SolveUnseeded(ikAttempts, retry, reply).value, reply, k)
  {
    k := FirstSolved(reply, 0, Budget(ikAttempts, retry));
  }

  lemma {:induction false} ScanNothing(seed: Pose, reply: nat -> Reply, first: nat, n: nat)
    requires NoneSolved(reply, first, first + n)
    ensures ScanFrom(Scan(None, LastCode(reply, first), false), seed, reply, first, n)
            == Scan(None, LastCode(reply, first + n), false)
  {
    if n > 0 {
      ScanNothing(seed, reply, first, n - 1);
      assert !reply(first + n - 1).Solved?;
    }
  }

  /** The last failure among n replies that bring no solution. */
  predicate LastFailure(reply: nat -> Reply, n: nat, k: nat, code: int) {
    k < n && reply(k) == Failed(code) && forall i: nat | k < i < n :: reply(i).NoReply?
  }

  lemma {:induction false} LastCodeIs(reply: nat -> Reply, n: nat)
    requires NoneSolved(reply, 0, n)
    ensures LastCode(reply, n).None? ==> forall i: nat | i < n :: reply(i).NoReply?
    ensures LastCode(reply, n).Some? ==> exists k: nat :: LastFailure(reply, n, k, LastCode(reply, n).value)
  {
    if n > 0 {
      LastCodeIs(reply, n - 1);
      assert !reply(n - 1).Solved?;
      if reply(n - 1).Failed? {
        assert LastFailure(reply, n, n - 1, reply(n - 1).code);
      } else if LastCode(reply, n - 1).Some? {
        var k: nat :| LastFailure(reply, n - 1, k, LastCode(reply, n - 1).value);
        assert LastFailure(reply, n, k, LastCode(reply, n).value);
      }
    }
  }

  lemma UnseededFailsIff(ikAttempts: int, retry: bool, reply: nat -> Reply)
    ensures var total := Budget(ikAttempts, retry);
            if NoneSolved(reply, 0, total)
            then SolveUnseeded(ikAttempts, retry, reply) == Err(NoSolution(LastCode(reply, total)))
            else SolveUnseeded(ikAttempts, retry, reply).Ok?
  {
    var first := FirstSolved(reply, 0, Budget(ikAttempts, retry));
    if first < Budget(ikAttempts, retry) {
      assert reply(first).Solved?;
    }
  }

  lemma ScanSolvedIff(s: Scan, seed: Pose, reply: nat -> Reply, first: nat, n: nat)
    requires s.best.None? && !s.raised
    ensures var r := ScanFrom(s, seed, reply, first, n);
            !r.raised && r.best.None? <==> NoneSolved(reply, first, first + n)
  {
    ScanRaises(s, seed, reply, first, n);
    var r := ScanFrom(s, seed, reply, first, n);
    if !r.raised {
      ScanFindsNearest(s, seed, reply, first, n);
      if r.best.Some? {
        var k: nat :| first <= k < first + n && AnsweredAt(r.best.value.0, reply, k);
        assert reply(k).Solved?;
      }
    }
  }

  lemma SeededFailsIff(seed: Pose, ikAttempts: int, retry: bool, reply: nat -> Reply)
    ensures var total, r := Budget(ikAttempts, retry), SolveSeeded(seed, ikAttempts, retry, reply);
            if NoneSolved(reply, 0, total) then r == Err(NoSolution(LastCode(reply, total)))
            else r.Ok? || r == Err(MissingJoint)
  {
    var n, start := Attempts(ikAttempts), Scan(None, None, false);
    var aware := ScanFrom(start, seed, reply, 0, n);
    ScanSolvedIff(start, seed, reply, 0, n);
    if NoneSolved(reply, 0, n) {
      ScanNothing(seed, reply, 0, n);
      if retry {
        ScanSolvedIff(aware, seed, reply, n, n);
        if NoneSolved(reply, n, n + n) {
          ScanNothing(seed, reply, n, n);
        }
      }
    }
    assert NoneSolved(reply, 0, n + n) <==> NoneSolved(reply, 0, n) && NoneSolved(reply, n, n + n);
  }

  /** The service finds nothing exactly if no request of the whole budget brings a solution, and then it is the
      code of the last failure that is reported, or a timeout if there was no reply at all. */
  lemma FindsNothingIff(seed: Option<Pose>, ikAttempts: int, retry: bool, reply: nat -> Reply)
    ensures var r, total := SolveIk(true, seed, ikAttempts, retry, reply), Budget(ikAttempts, retry);
            && (r.Err? && !r.error.MissingJoint? <==> NoneSolved(reply, 0, total))
            && (r.Err? && !r.error.MissingJoint? ==>
                  || (r.error.IkTimeout? && forall i: nat | i < total :: reply(i).NoReply?)
                  || (r.error.IkFailed? && exists k: nat :: LastFailure(reply, total, k, r.error.code)))
  {
    var total := Budget(ikAttempts, retry);
    if seed.Some? {
      SeededFailsIff(seed.value, ikAttempts, retry, reply);
    } else {
      UnseededFailsIff(ikAttempts, retry, reply);
    }
    if NoneSolved(reply, 0, total) {
      LastCodeIs(reply, total);
    }
  }

  // ------------------------------------------------------------------ steps

  datatype Order = Parallel | HandThenArm | ArmThenHand

  datatype Mode = Action | Topic

  /** A step of the sequence file, its defaults filled in. */
  datatype Step = Step(
    hasPose: bool, oriented: bool, hand: Option<seq<real>>, sec: real, handSec: real, order: Order, gapSec: real)

  datatype Params = Params(
    ikAttempts: int, retry: bool, mode: Mode, handTopicWait: bool, maxJump: real, skipHand: bool)

  /** What an action server makes of a goal sent to it. */
  datatype Sending = NoServer | NoAnswer | Rejected | Accepted

  /** The surroundings of one step: joint states that arrive before the IK seed is taken and before the
      jump check, the IK service, and how the goals fare. */
  datatype World = World(
    early: seq<JointState>, late: seq<JointState>, ikUp: bool, reply: nat -> Reply,
    armSending: Sending, armDone: bool, handSending: Sending, handDone: bool)

  datatype Event =
    | ArmGoal(pose: Pose, sec: real)
    | HandGoal(positions: seq<real>, sec: real)
    | HandTopic(hand: seq<real>, handSec: real)
    | ArmReached(reached: Pose)
    | Sleep(seconds: real)

  /** A running sequence: what was sent, the last commanded arm pose, the live one, and the exception
      that ended it. */
  datatype Track = Track(trace: seq<Event>, commanded: Option<Pose>, live: Option<Pose>, failed: Option<Error>)

  function Deliver(live: Option<Pose>, msgs: seq<JointState>): (r: Option<Pose>)
    ensures live.Some? ==> r.Some?
  {
    if |msgs| == 0 then live
    else
      var before := Deliver(live, msgs[..|msgs| - 1]);
      var arm := ArmOnly(msgs[|msgs| - 1]);
      if arm.Some? then arm else before
  }

  function Seed(t: Track): Option<Pose> {
    if t.commanded.Some? then t.commanded else t.live
  }

  predicate JumpAllowed(p: Params, pose: Pose, live: Option<Pose>) {
    live.Some? && p.maxJump > 0.0 ==> Delta(pose, live.value) <= p.maxJump
  }

  function Fail(t: Track, e: Error): Track {
    t.(failed := Some(e))
  }

  function Emit(t: Track, e: Event): Track {
    t.(trace := t.trace + [e])
  }

  /** _send_goal_get_handle. */
  function Send(t: Track, goal: Event, sending: Sending): Track {
    match sending
    case NoServer => Fail(t, ServerUnavailable)
    case NoAnswer => Fail(Emit(t, goal), SendTimeout)
    case Rejected => Fail(Emit(t, goal), GoalRejected)
    case Accepted => Emit(t, goal)
  }

  function AwaitArm(t: Track, pose: Pose, done: bool): Track {
    if t.failed.Some? then t
    else if done then Emit(t, ArmReached(pose)).(commanded := Some(pose))
    else Fail(t, ExecutionFailed)
  }

  function MoveArm(t: Track, step: Step, pose: Pose, w: World): Track {
    if t.failed.Some? then t else AwaitArm(Send(t, ArmGoal(pose, step.sec), w.armSending), pose, w.armDone)
  }

  function SendHand(t: Track, step: Step, hand: seq<real>, w: World): Track {
    if t.failed.Some? then t
    else if |hand| != 6 then Fail(t, BadHandPositions)
    else Send(t, HandGoal(hand, step.handSec), w.handSending)
  }

  function AwaitHand(t: Track, done: bool): Track {
    if t.failed.Some? || done then t else Fail(t, ExecutionFailed)
  }

  /** _execute_hand_step. */
  function MoveHand(t: Track, p: Params, step: Step, hand: seq<real>, w: World): Track {
    if t.failed.Some? then t
    else if p.mode.Action? then AwaitHand(SendHand(t, step, hand, w), w.handDone)
    else Emit(t, HandTopic(hand, step.handSec))
  }

  /** hand_topic_wait. */
  function HandWait(t: Track, p: Params, step: Step): Track {
    if t.failed.Some? || !p.handTopicWait then t else Emit(t, Sleep(Max(0.0, step.handSec)))
  }

  function Gap(t: Track, step: Step): Track {
    if t.failed.Some? || step.gapSec <= 0.0 then t else Emit(t, Sleep(step.gapSec))
  }

  function MoveBoth(t: Track, p: Params, step: Step, pose: Pose, hand: seq<real>, w: World): Track {
    match step.order
    case Parallel =>
      if p.mode.Action? then
        var sent := SendHand(Send(t, ArmGoal(pose, step.sec), w.armSending), step, hand, w);
        AwaitHand(AwaitArm(sent, pose, w.armDone), w.handDone)
      else HandWait(MoveHand(MoveArm(t, step, pose, w), p, step, hand, w), p, step)
    case HandThenArm => MoveArm(Gap(HandWait(MoveHand(t, p, step, hand, w), p, step), step), step, pose, w)
    case ArmThenHand => HandWait(MoveHand(Gap(MoveArm(t, step, pose, w), step), p, step, hand, w), p, step)
  }

  /** The pose an arm step will command, or why it is refused. */
  function Guarded(t: Track, p: Params, step: Step, w: World): Result<Pose> {
    if !step.oriented then Err(NoOrientation)
    else
      var solved := SolveIk(w.ikUp, Seed(t), p.ikAttempts, p.retry, w.reply);
      if solved.Err? then Err(solved.error)
      else
        var arm := ArmOnly(solved.value);
        if arm.None? then Err(MissingJoint)
        else if !JumpAllowed(p, arm.value, Deliver(t.live, w.late)) then Err(JumpTooLarge)
        else Ok(arm.value)
  }

  function Hand(p: Params, step: Step): Option<seq<real>> {
    if p.skipHand then None else step.hand
  }

  /** One turn of the loop. */
  function Perform(t: Track, p: Params, step: Step, w: World): Track {
    var hand := Hand(p, step);
    if !step.hasPose then
      if hand.Some? then HandWait(MoveHand(t, p, step, hand.value, w), p, step) else t
    else
      var seeded := t.(live := Deliver(t.live, w.early));
      var checked := seeded.(live := Deliver(seeded.live, w.late));
      var pose := Guarded(seeded, p, step, w);
      if pose.Err? then Fail(checked, pose.error)
      else if hand.Some? then MoveBoth(checked, p, step, pose.value, hand.value, w)
      else MoveArm(checked, step, pose.value, w)
  }

  /** The first k turns, none after one that failed. */
  function Turns(t: Track, turn: (Track, nat) -> Track, k: nat): Track {
    if k == 0 then t
    else
      var before := Turns(t, turn, k - 1);
      if before.failed.Some? then before else turn(before, k - 1)
  }

  function TurnOf(p: Params, steps: seq<Step>, worlds: nat -> World): (Track, nat) -> Track {
    (t: Track, k: nat) => if k < |steps| then Perform(t, p, steps[k], worlds(k)) else t
  }

  function Run(t: Track, p: Params, steps: seq<Step>, worlds: nat -> World, k: nat): Track {
    Turns(t, TurnOf(p, steps, worlds), k)
  }

  // ------------------------------------------------------------------ what was sent

  function ArmGoals(trace: seq<Event>): seq<Pose> {
    if |trace| == 0 then []
    else
      var last := trace[|trace| - 1];
      ArmGoals(trace[..|trace| - 1]) + if last.ArmGoal? then [last.pose] else []
  }

  lemma GoalsEmit(t: Track, e: Event)
    ensures ArmGoals(Emit(t, e).trace) == ArmGoals(t.trace) + if e.ArmGoal? then [e.pose] else []
  {
    assert Emit(t, e).trace[..|t.trace|] == t.trace;
  }

  /** The track went on without an arm goal. */
  predicate Quiet(t: Track, t': Track) {
    ArmGoals(t'.trace) == ArmGoals(t.trace) && t'.commanded == t.commanded
  }

  /** The track went on with at most one arm goal, to this pose; if nothing failed it was sent and
      reached, and is now the commanded pose. */
  predicate Moved(t: Track, t': Track, pose: Pose) {
    && (ArmGoals(t'.trace) == ArmGoals(t.trace) || ArmGoals(t'.trace) == ArmGoals(t.trace) + [pose])
    && (t'.failed.None? ==> ArmGoals(t'.trace) == ArmGoals(t.trace) + [pose] && t'.commanded == Some(pose))
  }

  lemma HandQuiet(t: Track, p: Params, step: Step, hand: seq<real>, w: World)
    ensures Quiet(t, SendHand(t, step, hand, w))
    ensures Quiet(t, MoveHand(t, p, step, hand, w))
  {
    GoalsEmit(t, HandGoal(hand, step.handSec));
    GoalsEmit(t, HandTopic(hand, step.handSec));
  }

  lemma WaitQuiet(t: Track, p: Params, step: Step)
    ensures Quiet(t, HandWait(t, p, step))
    ensures Quiet(t, Gap(t, step))
  {
    GoalsEmit(t, Sleep(Max(0.0, step.handSec)));
    GoalsEmit(t, Sleep(step.gapSec));
  }

  lemma SendArmGoals(t: Track, pose: Pose, sec: real, sending: Sending)
    requires t.failed.None?
    ensures var sent := Send(t, ArmGoal(pose, sec), sending);
            && (ArmGoals(sent.trace) == ArmGoals(t.trace) || ArmGoals(sent.trace) == ArmGoals(t.trace) + [pose])
            && (sent.failed.None? ==> ArmGoals(sent.trace) == ArmGoals(t.trace) + [pose])
  {
    GoalsEmit(t, ArmGoal(pose, sec));
  }

  lemma AwaitArmCommands(t: Track, pose: Pose, done: bool)
    ensures ArmGoals(AwaitArm(t, pose, done).trace) == ArmGoals(t.trace)
    ensures AwaitArm(t, pose, done).failed.None? ==> t.failed.None? && AwaitArm(t, pose, done).commanded == Some(pose)
  {
    GoalsEmit(t, ArmReached(pose));
  }

  lemma MoveArmMoves(t: Track, step: Step, pose: Pose, w: World)
    requires t.failed.None?
    ensures Moved(t, MoveArm(t, step, pose, w), pose)
  {
    SendArmGoals(t, pose, step.sec, w.armSending);
    AwaitArmCommands(Send(t, ArmGoal(pose, step.sec), w.armSending), pose, w.armDone);
  }

  lemma ParallelMoves(t: Track, p: Params, step: Step, pose: Pose, hand: seq<real>, w: World)
    requires t.failed.None?
    ensures var sent := Send(t, ArmGoal(pose, step.sec), w.armSending);
            var both := SendHand(sent, step, hand, w);
            Moved(t, AwaitHand(AwaitArm(both, pose, w.armDone), w.handDone), pose)
  {
    var sent := Send(t, ArmGoal(pose, step.sec), w.armSending);
    SendArmGoals(t, pose, step.sec, w.armSending);
    HandQuiet(sent, p, step, hand, w);
    AwaitArmCommands(SendHand(sent, step, hand, w), pose, w.armDone);
  }

  lemma MoveBothMoves(t: Track, p: Params, step: Step, pose: Pose, hand: seq<real>, w: World)
    requires t.failed.None?
    ensures Moved(t, MoveBoth(t, p, step, pose, hand, w), pose)
  {
    match step.order
    case Parallel =>
      if p.mode.Action? {
        ParallelMoves(t, p, step, pose, hand, w);
      } else {
        var t1 := MoveArm(t, step, pose, w);
        MoveArmMoves(t, step, pose, w);
        HandQuiet(t1, p, step, hand, w);
        WaitQuiet(MoveHand(t1, p, step, hand, w), p, step);
      }
    case HandThenArm =>
      var t1 := MoveHand(t, p, step, hand, w);
      HandQuiet(t, p, step, hand, w);
      WaitQuiet(t1, p, step);
      var t2 := HandWait(t1, p, step);
      WaitQuiet(t2, p, step);
      if Gap(t2, step).failed.None? {
        MoveArmMoves(Gap(t2, step), step, pose, w);
      }
    case ArmThenHand =>
      var t1 := MoveArm(t, step, pose, w);
      MoveArmMoves(t, step, pose, w);
      WaitQuiet(t1, p, step);
      var t2 := Gap(t1, step);
      HandQuiet(t2, p, step, hand, w);
      WaitQuiet(MoveHand(t2, p, step, hand, w), p, step);
  }

  /** The state in which step k looks for its pose. */
  function Asking(t: Track, p: Params, steps: seq<Step>, worlds: nat -> World, k: nat): Track
    requires k < |steps|
  {
    var before := Run(t, p, steps, worlds, k);
    before.(live := Deliver(before.live, worlds(k).early))
  }

  function Commands(t: Track, p: Params, steps: seq<Step>, worlds: nat -> World, k: nat): Result<Pose>
    requires k < |steps|
  {
    Guarded(Asking(t, p, steps, worlds, k), p, steps[k], worlds(k))
  }

  lemma RunNext(t: Track, p: Params, steps: seq<Step>, worlds: nat -> World, k: nat)
    requires k < |steps| && Run(t, p, steps, worlds, k).failed.None?
    ensures Run(t, p, steps, worlds, k + 1) == Perform(Run(t, p, steps, worlds, k), p, steps[k], worlds(k))
  {
  }

  /** The k-th step sends at most one arm goal, and only the pose that its IK solution gives and its jump
      check let pass. */
  lemma StepSafe(t: Track, p: Params, steps: seq<Step>, worlds: nat -> World, k: nat)
    requires k < |steps| && Run(t, p, steps, worlds, k).failed.None?
    ensures var before, after := Run(t, p, steps, worlds, k), Run(t, p, steps, worlds, k + 1);
            if steps[k].hasPose && Commands(t, p, steps, worlds, k).Ok?
            then Moved(before, after, Commands(t, p, steps, worlds, k).value)
            else Quiet(before, after) && (steps[k].hasPose ==> after.failed.Some?)
  {
    var before, step, w := Run(t, p, steps, worlds, k), steps[k], worlds(k);
    var hand := Hand(p, step);
    RunNext(t, p, steps, worlds, k);
    if !step.hasPose {
      if hand.Some? {
        HandQuiet(before, p, step, hand.value, w);
        WaitQuiet(MoveHand(before, p, step, hand.value, w), p, step);
      }
    } else if Commands(t, p, steps, worlds, k).Ok? {
      var checked := Asking(t, p, steps, worlds, k);
      checked := checked.(live := Deliver(checked.live, w.late));
      var pose := Commands(t, p, steps, worlds, k).value;
      if hand.Some? {
        MoveBothMoves(checked, p, step, pose, hand.value, w);
      } else {
        MoveArmMoves(checked, step, pose, w);
      }
    }
  }

  /** The pose that step k lets pass, if it is an arm step that gets so far. */
  function LetPass(t: Track, p: Params, steps: seq<Step>, worlds: nat -> World, k: nat): (r: seq<Pose>)
    requires k < |steps|
    ensures |r| <= 1
  {
    if steps[k].hasPose && Run(t, p, steps, worlds, k).failed.None? && Commands(t, p, steps, worlds, k).Ok?
    then [Commands(t, p, steps, worlds, k).value]
    else []
  }

  /** The first k parts one after the other. */
  function Joined<T>(part: nat -> seq<T>, k: nat): seq<T> {
    if k == 0 then [] else Joined(part, k - 1) + part(k - 1)
  }

  lemma {:induction false} JoinedFrom<T>(part: nat -> seq<T>, n: nat, g: nat) returns (k: nat)
    requires g < |Joined(part, n)| && forall i: nat :: |part(i)| <= 1
    ensures k < n && part(k) == [Joined(part, n)[g]]
  {
    if g < |Joined(part, n - 1)| {
      k := JoinedFrom(part, n - 1, g);
    } else {
      k := n - 1;
    }
  }

  function LetPassOf(t: Track, p: Params, steps: seq<Step>, worlds: nat -> World): nat -> seq<Pose> {
    (k: nat) => if k < |steps| then LetPass(t, p, steps, worlds, k) else []
  }

  /** The arm goals of the steps before k that were let pass. */
  function Planned(t: Track, p: Params, steps: seq<Step>, worlds: nat -> World, k: nat): seq<Pose> {
    Joined(LetPassOf(t, p, steps, worlds), k)
  }

  predicate Fresh(t: Track) {
    t.trace == [] && t.commanded.None? && t.failed.None?
  }

  /** The arm goals sent are those planned, the last of them missing at most in a run that failed; while
      nothing failed the commanded pose is the last goal sent. */
  predicate AsPlanned(r: Track, planned: seq<Pose>) {
    var sent := ArmGoals(r.trace);
    && (r.failed.None? ==> sent == planned)
    && (r.failed.Some? ==> sent == planned || (|planned| > 0 && sent == planned[..|planned| - 1]))
    && (r.failed.None? ==> r.commanded == if |sent| == 0 then None else Some(sent[|sent| - 1]))
  }

  lemma MovedAsPlanned(t: Track, t': Track, planned: seq<Pose>, pose: Pose)
    requires t.failed.None? && AsPlanned(t, planned) && Moved(t, t', pose)
    ensures AsPlanned(t', planned + [pose])
  {
    assert (planned + [pose])[..|planned|] == planned;
  }

  lemma QuietAsPlanned(t: Track, t': Track, planned: seq<Pose>)
    requires t.failed.None? && AsPlanned(t, planned) && Quiet(t, t')
    ensures AsPlanned(t', planned)
  {
  }

  /** If a run is as planned after k turns, it is after one more. */
  predicate StaysPlanned(t: Track, turn: (Track, nat) -> Track, part: nat -> seq<Pose>, k: nat) {
    AsPlanned(Turns(t, turn, k), Joined(part, k)) ==> AsPlanned(Turns(t, turn, k + 1), Joined(part, k + 1))
  }

  ghost predicate AlwaysPlanned(t: Track, turn: (Track, nat) -> Track, part: nat -> seq<Pose>, n: nat) {
    forall k: nat | k < n :: StaysPlanned(t, turn, part, k)
  }

  lemma {:induction false} PlannedThroughout(
    t: Track, turn: (Track, nat) -> Track, part: nat -> seq<Pose>, n: nat)
    requires Fresh(t) && AlwaysPlanned(t, turn, part, n)
    ensures AsPlanned(Turns(t, turn, n), Joined(part, n))
  {
    if n > 0 {
      PlannedThroughout(t, turn, part, n - 1);
      assert StaysPlanned(t, turn, part, n - 1);
    }
  }

  lemma FailedStays(t: Track, p: Params, steps: seq<Step>, worlds: nat -> World, k: nat)
    requires k < |steps| && Run(t, p, steps, worlds, k).failed.Some?
    ensures Run(t, p, steps, worlds, k + 1) == Run(t, p, steps, worlds, k)
    ensures LetPass(t, p, steps, worlds, k) == []
  {
  }

  lemma PlannedNext(t: Track, p: Params, steps: seq<Step>, worlds: nat -> World, k: nat)
    requires k < |steps|
    ensures Planned(t, p, steps, worlds, k + 1) == Planned(t, p, steps, worlds, k) + LetPass(t, p, steps, worlds, k)
  {
  }

  lemma GoesOnAsPlanned(t: Track, p: Params, steps: seq<Step>, worlds: nat -> World, k: nat)
    requires k < |steps| && Run(t, p, steps, worlds, k).failed.None?
    requires AsPlanned(Run(t, p, steps, worlds, k), Planned(t, p, steps, worlds, k))
    ensures AsPlanned(Run(t, p, steps, worlds, k + 1),
                      Planned(t, p, steps, worlds, k) + LetPass(t, p, steps, worlds, k))
  {
    var before, after := Run(t, p, steps, worlds, k), Run(t, p, steps, worlds, k + 1);
    var planned := Planned(t, p, steps, worlds, k);
    StepSafe(t, p, steps, worlds, k);
    if steps[k].hasPose && Commands(t, p, steps, worlds, k).Ok? {
      MovedAsPlanned(before, after, planned, Commands(t, p, steps, worlds, k).value);
    } else {
      QuietAsPlanned(before, after, planned);
    }
  }

  lemma RunsOn(t: Track, p: Params, steps: seq<Step>, worlds: nat -> World, k: nat)
    requires k < |steps|
    ensures StaysPlanned(t, TurnOf(p, steps, worlds), LetPassOf(t, p, steps, worlds), k)
  {
    PlannedNext(t, p, steps, worlds, k);
    if Run(t, p, steps, worlds, k).failed.Some? {
      FailedStays(t, p, steps, worlds, k);
    } else if AsPlanned(Run(t, p, steps, worlds, k), Planned(t, p, steps, worlds, k)) {
      GoesOnAsPlanned(t, p, steps, worlds, k);
    }
  }

  lemma AlwaysRunsOn(t: Track, p: Params, steps: seq<Step>, worlds: nat -> World, n: nat)
    requires n <= |steps|
    ensures AlwaysPlanned(t, TurnOf(p, steps, worlds), LetPassOf(t, p, steps, worlds), n)
  {
    forall k: nat | k < n ensures StaysPlanned(t, TurnOf(p, steps, worlds), LetPassOf(t, p, steps, worlds), k) {
      RunsOn(t, p, steps, worlds, k);
    }
  }

  /** Safety of every sequence: the arm goals sent are, in order, the poses of the arm steps that passed
      the guard, and the pose that seeds the next IK request is the last one sent. */
  lemma SequenceSafe(t: Track, p: Params, steps: seq<Step>, worlds: nat -> World, k: nat)
    requires Fresh(t) && k <= |steps|
    ensures AsPlanned(Run(t, p, steps, worlds, k), Planned(t, p, steps, worlds, k))
  {
    AlwaysRunsOn(t, p, steps, worlds, k);
    PlannedThroughout(t, TurnOf(p, steps, worlds), LetPassOf(t, p, steps, worlds), k);
  }

  /** The next IK request is seeded with the last arm goal sent, or before any with the live pose. */
  lemma SeedIsLastGoal(t: Track, p: Params, steps: seq<Step>, worlds: nat -> World, k: nat)
    requires Fresh(t) && k < |steps| && Run(t, p, steps, worlds, k).failed.None?
    ensures var sent := ArmGoals(Run(t, p, steps, worlds, k).trace);
            Seed(Asking(t, p, steps, worlds, k))
            == if |sent| == 0 then Asking(t, p, steps, worlds, k).live else Some(sent[|sent| - 1])
  {
    SequenceSafe(t, p, steps, worlds, k);
  }

  /** With the guard enabled and the live pose known, no joint is farther from it than allowed. */
  predicate Within(p: Params, pose: Pose, live: Option<Pose>) {
    live.Some? && p.maxJump > 0.0 ==> forall j | 0 <= j < DOF :: Abs(pose[j] - live.value[j]) <= p.maxJump
  }

  lemma AllowedIff(p: Params, pose: Pose, live: Option<Pose>)
    ensures JumpAllowed(p, pose, live) <==> Within(p, pose, live)
  {
    if live.Some? && p.maxJump > 0.0 {
      MaxDeltaIsMax(live.value, pose, DOF);
    }
  }

  lemma SolveErrors(up: bool, seed: Option<Pose>, ikAttempts: int, retry: bool, reply: nat -> Reply)
    ensures var r := SolveIk(up, seed, ikAttempts, retry, reply);
            r.Err? ==> && (r.error.ServiceUnavailable? <==> !up)
                       && !r.error.NoOrientation? && !r.error.JumpTooLarge?
  {
    if up {
      if seed.Some? {
        SeededFailsIff(seed.value, ikAttempts, retry, reply);
      } else {
        UnseededFailsIff(ikAttempts, retry, reply);
      }
    }
  }

  /** When an arm step is refused, and why. */
  lemma RefusedIff(t: Track, p: Params, step: Step, w: World)
    ensures var r, solved := Guarded(t, p, step, w), SolveIk(w.ikUp, Seed(t), p.ikAttempts, p.retry, w.reply);
            && (r == Err(NoOrientation) <==> !step.oriented)
            && (r == Err(ServiceUnavailable) <==> step.oriented && !w.ikUp)
            && (r == Err(JumpTooLarge)
                <==> step.oriented && solved.Ok? && ArmOnly(solved.value).Some?
                     && !Within(p, ArmOnly(solved.value).value, Deliver(t.live, w.late)))
            && (step.oriented && solved.Err? ==> r == Err(solved.error))
            && (step.oriented && solved.Ok? && ArmOnly(solved.value).None? ==> r == Err(MissingJoint))
            && (r.Ok? <==> step.oriented && solved.Ok? && ArmOnly(solved.value).Some?
                           && Within(p, ArmOnly(solved.value).value, Deliver(t.live, w.late)))
  {
    var solved := SolveIk(w.ikUp, Seed(t), p.ikAttempts, p.retry, w.reply);
    SolveErrors(w.ikUp, Seed(t), p.ikAttempts, p.retry, w.reply);
    if solved.Ok? && ArmOnly(solved.value).Some? {
      AllowedIff(p, ArmOnly(solved.value).value, Deliver(t.live, w.late));
    }
  }

  /** What letting pass means: the pose is that of an IK solution found with the seed of that moment, and
      with the guard enabled and the live pose known it is no farther from the live pose than allowed. */
  lemma GuardedMeans(t: Track, p: Params, step: Step, w: World)
    requires Guarded(t, p, step, w).Ok?
    ensures var pose, solved := Guarded(t, p, step, w).value, SolveIk(w.ikUp, Seed(t), p.ikAttempts, p.retry, w.reply);
            && solved.Ok? && ArmOnly(solved.value) == Some(pose)
            && Within(p, pose, Deliver(t.live, w.late))
            && (exists i: nat :: i < Budget(p.ikAttempts, p.retry) && w.reply(i) == Solved(solved.value))
            && (Seed(t).Some? ==>
                  var n := Attempts(p.ikAttempts);
                  || Nearest(solved.value, Seed(t).value, w.reply, 0, n)
                  || (p.retry && NoneSolved(w.reply, 0, n) && Nearest(solved.value, Seed(t).value, w.reply, n, n + n)))
  {
    var solved := SolveIk(w.ikUp, Seed(t), p.ikAttempts, p.retry, w.reply);
    AllowedIff(p, Guarded(t, p, step, w).value, Deliver(t.live, w.late));
    if Seed(t).Some? {
      SeededIsNearest(Seed(t).value, p.ikAttempts, p.retry, w.reply);
    } else {
      assert w.reply(FirstSolved(w.reply, 0, Budget(p.ikAttempts, p.retry))) == Solved(solved.value);
    }
  }

  /** Where a planned pose comes from. */
  lemma PlannedFrom(t: Track, p: Params, steps: seq<Step>, worlds: nat -> World, n: nat, g: nat) returns (k: nat)
    requires n <= |steps| && g < |Planned(t, p, steps, worlds, n)|
    ensures k < n && LetPass(t, p, steps, worlds, k) == [Planned(t, p, steps, worlds, n)[g]]
  {
    k := JoinedFrom(LetPassOf(t, p, steps, worlds), n, g);
  }

  lemma LetPassMeans(t: Track, p: Params, steps: seq<Step>, worlds: nat -> World, k: nat, pose: Pose)
    requires k < |steps| && LetPass(t, p, steps, worlds, k) == [pose]
    ensures steps[k].hasPose && Commands(t, p, steps, worlds, k) == Ok(pose)
  {
  }

  /** The live pose that step k's jump check reads. */
  function LiveAtCheck(t: Track, p: Params, steps: seq<Step>, worlds: nat -> World, k: nat): Option<Pose>
    requires k < |steps|
  {
    Deliver(Asking(t, p, steps, worlds, k).live, worlds(k).late)
  }

  predicate Gives(r: Reply, pose: Pose) {
    r.Solved? && ArmOnly(r.solution) == Some(pose)
  }

  /** Every arm goal in the trace of every run was sent by an arm step whose IK request was answered with a
      solution of that pose and whose jump check let it pass against the live pose of that moment. */
  lemma EveryGoalGuarded(t: Track, p: Params, steps: seq<Step>, worlds: nat -> World, n: nat, g: nat) returns (k: nat)
    requires Fresh(t) && n <= |steps| && g < |ArmGoals(Run(t, p, steps, worlds, n).trace)|
    ensures k < n && steps[k].hasPose
    ensures var pose := ArmGoals(Run(t, p, steps, worlds, n).trace)[g];
            && Commands(t, p, steps, worlds, k) == Ok(pose)
            && Within(p, pose, LiveAtCheck(t, p, steps, worlds, k))
            && exists i: nat :: i < Budget(p.ikAttempts, p.retry) && Gives(worlds(k).reply(i), pose)
  {
    SequenceSafe(t, p, steps, worlds, n);
    k := PlannedFrom(t, p, steps, worlds, n, g);
    LetPassMeans(t, p, steps, worlds, k, Planned(t, p, steps, worlds, n)[g]);
    var asking := Asking(t, p, steps, worlds, k);
    GuardedMeans(asking, p, steps[k], worlds(k));
    var solved := SolveIk(worlds(k).ikUp, Seed(asking), p.ikAttempts, p.retry, worlds(k).reply);
    var i: nat :| i < Budget(p.ikAttempts, p.retry) && worlds(k).reply(i) == Solved(solved.value);
    assert Gives(worlds(k).reply(i), ArmGoals(Run(t, p, steps, worlds, n).trace)[g]);
  }

  // ------------------------------------------------------------------ the node

  lemma {:induction false} RaisedStays(s: Scan, seed: Pose, reply: nat -> Reply, first: nat, i: nat, n: nat)
    requires i <= n && ScanFrom(s, seed, reply, first, i).raised
    ensures ScanFrom(s, seed, reply, first, n) == ScanFrom(s, seed, reply, first, i)
  {
    if i < n {
      RaisedStays(s, seed, reply, first, i, n - 1);
    }
  }

  lemma {:induction false} FirstSolvedSplit(reply: nat -> Reply, k: nat, m: nat, n: nat)
    requires k <= m <= n
    ensures FirstSolved(reply, k, n)
            == if FirstSolved(reply, k, m) < m then FirstSolved(reply, k, m) else FirstSolved(reply, m, n)
    decreases m - k
  {
    if k < m && !reply(k).Solved? {
      FirstSolvedSplit(reply, k + 1, m, n);
    }
  }

  lemma {:induction false} TurnsStop(t: Track, turn: (Track, nat) -> Track, k: nat, n: nat)
    requires k <= n && Turns(t, turn, k).failed.Some?
    ensures Turns(t, turn, n) == Turns(t, turn, k)
  {
    if k < n {
      TurnsStop(t, turn, k, n - 1);
    }
  }

  /** The requests of one collision mode without a seed: stop at the first solution. */
  method TryUnseeded(n: nat, reply: nat -> Reply, first: nat, lastCode: Option<int>)
    returns (code: Option<int>, taken: Option<JointState>, requests: nat)
    requires lastCode == LastCode(reply, first)
    ensures requests <= first + n
    ensures var f := FirstSolved(reply, first, first + n);
            if f < first + n then taken == Some(reply(f).solution)
            else taken.None? && requests == first + n && code == LastCode(reply, first + n)
  {
    code, taken, requests := lastCode, None, first;
    while requests < first + n
      invariant first <= requests <= first + n
      invariant FirstSolved(reply, first, first + n) == FirstSolved(reply, requests, first + n)
      invariant code == LastCode(reply, requests)
    {
      var answer := reply(requests);
      if answer.Solved? {
        taken := Some(answer.solution);
        return code, taken, requests + 1;
      }
      FirstSolvedSplit(reply, first, requests, first + n);
      if answer.Failed? {
        code := Some(answer.code);
      }
      requests := requests + 1;
    }
  }

  /** _arm_only_joint_state. */
  method ReadArm(js: JointState) returns (arm: Option<Pose>)
    ensures arm == ArmOnly(js)
  {
    var index := BuildIndex(js.names);
    var complete := HasAllJoints(js.names, index);
    if !complete {
      return None;
    }
    var pose := PickPose(js.names, js.positions, index);
    arm := Some(pose);
  }

  /** The requests of one collision mode with a seed: keep the nearest solution. */
  method TrySeeded(seed: Pose, n: nat, reply: nat -> Reply, first: nat, start: Scan) returns (s: Scan)
    requires !start.raised
    ensures s == ScanFrom(start, seed, reply, first, n)
  {
    s := start;
    for i := 0 to n
      invariant s == ScanFrom(start, seed, reply, first, i) && !s.raised
    {
      var answer := reply(first + i);
      match answer {
        case NoReply =>
        case Failed(code) => s := s.(lastCode := Some(code));
        case Solved(js) =>
          var arm := ReadArm(js);
          if arm.None? {
            s := s.(raised := true);
            RaisedStays(start, seed, reply, first, i + 1, n);
            return;
          }
          var delta := LargestDelta(seed, arm.value);
          if s.best.None? || delta < Delta(s.best.value.1, seed) {
            s := s.(best := Some((js, arm.value)));
          }
          s := s.(lastCode := Some(SUCCESS));
      }
    }
  }

  class PoseSequenceNode {
    var live: Option<Pose>
    var commanded: Option<Pose>
    var trace: seq<Event>

    function Value(failed: Option<Error>): Track
      reads this
    {
      Track(trace, commanded, live, failed)
    }

    constructor ()
      ensures Fresh(Value(None)) && live.None?
    {
      live, commanded, trace := None, None, [];
    }

    /** The joint state callbacks that run while the node spins. */
    method Spin(msgs: seq<JointState>)
      modifies this`live
      ensures live == Deliver(old(live), msgs)
    {
      for i := 0 to |msgs|
        invariant live == Deliver(old(live), msgs[..i])
      {
        assert msgs[..i + 1][..i] == msgs[..i];
        var arm := ReadArm(msgs[i]);
        if arm.Some? {
          live := arm;
        }
      }
      assert msgs[..|msgs|] == msgs;
    }

    static method SearchUnseeded(ikAttempts: int, retry: bool, reply: nat -> Reply) returns (r: Result<JointState>)
      ensures r == SolveUnseeded(ikAttempts, retry, reply)
    {
      var n := Attempts(ikAttempts);
      var code, taken, requests := TryUnseeded(n, reply, 0, None);
      FirstSolvedSplit(reply, 0, n, Budget(ikAttempts, retry));
      if taken.None? && retry {
        code, taken, requests := TryUnseeded(n, reply, n, code);
      }
      if taken.Some? {
        return Ok(taken.value);
      }
      r := Err(NoSolution(code));
    }

    /** _solve_ik. */
    method FindSolution(up: bool, ikAttempts: int, retry: bool, reply: nat -> Reply) returns (r: Result<JointState>)
      ensures r == SolveIk(up, Seed(Value(None)), ikAttempts, retry, reply)
    {
      if !up {
        return Err(ServiceUnavailable);
      }
      var n := Attempts(ikAttempts);
      var seed := if commanded.Some? then commanded else live;
      if seed.None? {
        r := SearchUnseeded(ikAttempts, retry, reply);
        return;
      }
      var s := TrySeeded(seed.value, n, reply, 0, Scan(None, None, false));
      if !s.raised && s.best.None? && retry {
        s := TrySeeded(seed.value, n, reply, n, s);
      }
      if s.raised {
        return Err(MissingJoint);
      }
      if s.best.Some? {
        return Ok(s.best.value.0);
      }
      r := Err(NoSolution(s.lastCode));
    }

    method SendGoal(goal: Event, sending: Sending) returns (failed: Option<Error>)
      modifies this`trace
      ensures Value(failed) == Send(old(Value(None)), goal, sending)
    {
      if sending.NoServer? {
        return Some(ServerUnavailable);
      }
      trace := trace + [goal];
      match sending {
        case NoAnswer => failed := Some(SendTimeout);
        case Rejected => failed := Some(GoalRejected);
        case _ => failed := None;
      }
    }

    method WaitArm(pose: Pose, done: bool) returns (failed: Option<Error>)
      modifies this`trace, this`commanded
      ensures Value(failed) == AwaitArm(old(Value(None)), pose, done)
    {
      if !done {
        return Some(ExecutionFailed);
      }
      trace := trace + [ArmReached(pose)];
      commanded := Some(pose);
      failed := None;
    }

    method SendAndWaitArm(step: Step, pose: Pose, w: World) returns (failed: Option<Error>)
      modifies this`trace, this`commanded
      ensures Value(failed) == MoveArm(old(Value(None)), step, pose, w)
    {
      failed := SendGoal(ArmGoal(pose, step.sec), w.armSending);
      if failed.None? {
        failed := WaitArm(pose, w.armDone);
      }
    }

    method SendHandGoal(step: Step, hand: seq<real>, w: World) returns (failed: Option<Error>)
      modifies this`trace
      ensures Value(failed) == SendHand(old(Value(None)), step, hand, w)
    {
      if |hand| != 6 {
        return Some(BadHandPositions);
      }
      failed := SendGoal(HandGoal(hand, step.handSec), w.handSending);
    }

    /** _execute_hand_step. */
    method ExecuteHandStep(p: Params, step: Step, hand: seq<real>, w: World) returns (failed: Option<Error>)
      modifies this`trace
      ensures Value(failed) == MoveHand(old(Value(None)), p, step, hand, w)
    {
      if p.mode.Topic? {
        trace := trace + [HandTopic(hand, step.handSec)];
        return None;
      }
      failed := SendHandGoal(step, hand, w);
      if failed.None? && !w.handDone {
        failed := Some(ExecutionFailed);
      }
    }

    method Pause(p: Params, step: Step)
      modifies this`trace
      ensures Value(None) == HandWait(old(Value(None)), p, step)
    {
      if p.handTopicWait {
        trace := trace + [Sleep(Max(0.0, step.handSec))];
      }
    }

    method WaitGap(step: Step)
      modifies this`trace
      ensures Value(None) == Gap(old(Value(None)), step)
    {
      if step.gapSec > 0.0 {
        trace := trace + [Sleep(step.gapSec)];
      }
    }

    method HandAndPause(p: Params, step: Step, hand: seq<real>, w: World) returns (failed: Option<Error>)
      modifies this`trace
      ensures Value(failed) == HandWait(MoveHand(old(Value(None)), p, step, hand, w), p, step)
    {
      failed := ExecuteHandStep(p, step, hand, w);
      if failed.None? {
        Pause(p, step);
      }
    }

    method RunParallel(step: Step, pose: Pose, hand: seq<real>, w: World) returns (failed: Option<Error>)
      modifies this`trace, this`commanded
      ensures var armSent := Send(old(Value(None)), ArmGoal(pose, step.sec), w.armSending);
              var bothSent := SendHand(armSent, step, hand, w);
              Value(failed) == AwaitHand(AwaitArm(bothSent, pose, w.armDone), w.handDone)
    {
      failed := SendGoal(ArmGoal(pose, step.sec), w.armSending);
      if failed.Some? {
        return;
      }
      failed := SendHandGoal(step, hand, w);
      if failed.Some? {
        return;
      }
      failed := WaitArm(pose, w.armDone);
      if failed.None? && !w.handDone {
        failed := Some(ExecutionFailed);
      }
    }

    method RunBoth(p: Params, step: Step, pose: Pose, hand: seq<real>, w: World) returns (failed: Option<Error>)
      modifies this`trace, this`commanded
      ensures Value(failed) == MoveBoth(old(Value(None)), p, step, pose, hand, w)
    {
      if step.order.Parallel? && p.mode.Action? {
        failed := RunParallel(step, pose, hand, w);
      } else if step.order.Parallel? {
        failed := SendAndWaitArm(step, pose, w);
        if failed.None? {
          failed := HandAndPause(p, step, hand, w);
        }
      } else if step.order.HandThenArm? {
        failed := HandAndPause(p, step, hand, w);
        if failed.None? {
          WaitGap(step);
          failed := SendAndWaitArm(step, pose, w);
        }
      } else {
        failed := SendAndWaitArm(step, pose, w);
        if failed.None? {
          WaitGap(step);
          failed := HandAndPause(p, step, hand, w);
        }
      }
    }

    /** From the pose of an arm step to the goal it may send. */
    method Guard(p: Params, step: Step, w: World) returns (r: Result<Pose>)
      modifies this`live
      ensures r == Guarded(old(Value(None)), p, step, w)
      ensures live == Deliver(old(live), w.late)
    {
      if !step.oriented {
        Spin(w.late);
        return Err(NoOrientation);
      }
      var solved := FindSolution(w.ikUp, p.ikAttempts, p.retry, w.reply);
      Spin(w.late);
      if solved.Err? {
        return Err(solved.error);
      }
      var arm := ReadArm(solved.value);
      if arm.None? {
        return Err(MissingJoint);
      }
      if live.Some? {
        var delta := LargestDelta(live.value, arm.value);
        if p.maxJump > 0.0 && delta > p.maxJump {
          return Err(JumpTooLarge);
        }
      }
      r := Ok(arm.value);
    }

    method RunStep(p: Params, step: Step, w: World) returns (failed: Option<Error>)
      modifies this
      ensures Value(failed) == Perform(old(Value(None)), p, step, w)
    {
      var hand := if p.skipHand then None else step.hand;
      if !step.hasPose {
        failed := None;
        if hand.Some? {
          failed := HandAndPause(p, step, hand.value, w);
        }
        return;
      }
      Spin(w.early);
      var pose := Guard(p, step, w);
      if pose.Err? {
        return Some(pose.error);
      }
      if hand.Some? {
        failed := RunBoth(p, step, pose.value, hand.value, w);
      } else {
        failed := SendAndWaitArm(step, pose.value, w);
      }
    }

    method RunTurn(ghost start: Track, p: Params, steps: seq<Step>, worlds: nat -> World, i: nat)
      returns (failed: Option<Error>)
      requires i < |steps| && Value(None) == Run(start, p, steps, worlds, i)
      modifies this
      ensures Value(failed) == Run(start, p, steps, worlds, i + 1)
    {
      RunNext(start, p, steps, worlds, i);
      failed := RunStep(p, steps[i], worlds(i));
    }

    /** run_sequence: the first exception ends it. */
    method RunSequence(p: Params, steps: seq<Step>, worlds: nat -> World) returns (failed: Option<Error>)
      modifies this
      ensures Value(failed) == Run(old(Value(None)), p, steps, worlds, |steps|)
    {
      failed := None;
      ghost var start := Value(None);
      for i := 0 to |steps|
        invariant failed.None? && Value(failed) == Run(start, p, steps, worlds, i)
      {
        failed := RunTurn(start, p, steps, worlds, i);
        if failed.Some? {
          TurnsStop(start, TurnOf(p, steps, worlds), i + 1, |steps|);
          return;
        }
      }
    }
  }
}

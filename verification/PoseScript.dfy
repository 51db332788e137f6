/** The script of an arm pose sequence: which events each step sends, in which order, and how a step ends. */
module PoseScript {
  import opened Numbers
  import opened Poses
  import opened PoseSequence
  import opened Wrappers

  predicate IsHand(e: Event) {
    e.HandGoal? || e.HandTopic?
  }

  /** The hand's command as the mode sends it. */
  function HandPart(p: Params, step: Step): seq<Event> {
    if p.skipHand || step.hand.None? then []
    else if p.mode.Action? then [HandGoal(step.hand.value, step.handSec)]
    else [HandTopic(step.hand.value, step.handSec)]
  }

  function ArmPart(step: Step, pose: Option<Pose>): seq<Event> {
    if pose.None? then [] else [ArmGoal(pose.value, step.sec), ArmReached(pose.value)]
  }

  function WaitPart(p: Params, step: Step): seq<Event> {
    if p.handTopicWait && |HandPart(p, step)| > 0 then [Sleep(if step.handSec > 0.0 then step.handSec else 0.0)] else []
  }

  function GapPart(p: Params, step: Step): seq<Event> {
    if step.gapSec > 0.0 && |HandPart(p, step)| > 0 then [Sleep(step.gapSec)] else []
  }

  /** The events of a step that goes through, with the pose that was let pass if it is an arm step. */
  function Script(p: Params, step: Step, pose: Option<Pose>): seq<Event> {
    var hand, arm, wait, gap := HandPart(p, step), ArmPart(step, pose), WaitPart(p, step), GapPart(p, step);
    if pose.None? then hand + wait
    else if |hand| == 0 then arm
    else match step.order
      case Parallel => if p.mode.Action? then [arm[0]] + hand + [arm[1]] else arm + (hand + wait)
      case HandThenArm => hand + wait + gap + arm
      case ArmThenHand => arm + gap + (hand + wait)
  }

  // ------------------------------------------------------------------ following a script

  /** t' went on from t with the first events of a script, with all of them if nothing failed. */
  predicate Follows(t: Track, t': Track, script: seq<Event>) {
    && |t.trace| <= |t'.trace| <= |t.trace| + |script|
    && t'.trace == t.trace + script[..|t'.trace| - |t.trace|]
    && (t'.failed.None? ==> |t'.trace| == |t.trace| + |script|)
  }

  lemma FollowsThen(t: Track, t1: Track, t2: Track, first: seq<Event>, second: seq<Event>)
    requires Follows(t, t1, first)
    requires if t1.failed.None? then Follows(t1, t2, second) else t2.failed.Some? && t2.trace == t1.trace
    ensures Follows(t, t2, first + second)
  {
    var n := |t2.trace| - |t.trace|;
    if t1.failed.None? {
      assert (first + second)[..n] == first + second[..n - |first|];
      assert t1.trace == t.trace + first;
    } else {
      assert (first + second)[..n] == first[..n];
    }
  }

  lemma SendFollows(t: Track, goal: Event, sending: Sending)
    requires t.failed.None?
    ensures Follows(t, Send(t, goal, sending), [goal])
    ensures Send(t, goal, sending).failed
            == match sending
               case NoServer => Some(ServerUnavailable)
               case NoAnswer => Some(SendTimeout)
               case Rejected => Some(GoalRejected)
               case Accepted => None
  {
    assert [goal][..0] == [] && [goal][..1] == [goal] && t.trace + [] == t.trace;
  }

  lemma AwaitArmFollows(t: Track, pose: Pose, done: bool)
    requires t.failed.None?
    ensures Follows(t, AwaitArm(t, pose, done), [ArmReached(pose)])
    ensures AwaitArm(t, pose, done).failed == if done then None else Some(ExecutionFailed)
  {
    var e := ArmReached(pose);
    assert [e][..0] == [] && [e][..1] == [e] && t.trace + [] == t.trace;
  }

  // ------------------------------------------------------------------ how the parts end

  function SendingError(sending: Sending): Option<Error> {
    match sending
    case NoServer => Some(ServerUnavailable)
    case NoAnswer => Some(SendTimeout)
    case Rejected => Some(GoalRejected)
    case Accepted => None
  }

  function DoneError(done: bool): Option<Error> {
    if done then None else Some(ExecutionFailed)
  }

  function OrElse(first: Option<Error>, second: Option<Error>): Option<Error> {
    if first.Some? then first else second
  }

  function HandSendError(p: Params, step: Step, w: World): Option<Error> {
    if p.mode.Topic? || |HandPart(p, step)| == 0 then None
    else if |step.hand.value| != 6 then Some(BadHandPositions)
    else SendingError(w.handSending)
  }

  function HandDoneError(p: Params, step: Step, w: World): Option<Error> {
    if p.mode.Topic? || |HandPart(p, step)| == 0 then None else DoneError(w.handDone)
  }

  function HandError(p: Params, step: Step, w: World): Option<Error> {
    OrElse(HandSendError(p, step, w), HandDoneError(p, step, w))
  }

  function ArmError(w: World): Option<Error> {
    OrElse(SendingError(w.armSending), DoneError(w.armDone))
  }

  /** The exception that ends a step whose pose was let pass, if any: that of the part that fails first. */
  function ScriptError(p: Params, step: Step, pose: Option<Pose>, w: World): Option<Error> {
    if pose.None? then HandError(p, step, w)
    else match step.order
      case Parallel =>
        if p.mode.Action? then
          OrElse(OrElse(SendingError(w.armSending), HandSendError(p, step, w)),
                 OrElse(DoneError(w.armDone), HandDoneError(p, step, w)))
        else OrElse(ArmError(w), HandError(p, step, w))
      case HandThenArm => OrElse(HandError(p, step, w), ArmError(w))
      case ArmThenHand => OrElse(ArmError(w), HandError(p, step, w))
  }

  lemma MoveArmFollows(t: Track, step: Step, pose: Pose, w: World)
    requires t.failed.None?
    ensures Follows(t, MoveArm(t, step, pose, w), ArmPart(step, Some(pose)))
    ensures MoveArm(t, step, pose, w).failed == ArmError(w)
  {
    var goal := ArmGoal(pose, step.sec);
    var sent := Send(t, goal, w.armSending);
    SendFollows(t, goal, w.armSending);
    if sent.failed.None? {
      AwaitArmFollows(sent, pose, w.armDone);
    }
    FollowsThen(t, sent, MoveArm(t, step, pose, w), [goal], [ArmReached(pose)]);
    assert [goal] + [ArmReached(pose)] == ArmPart(step, Some(pose));
  }

  lemma NothingFollows(t: Track)
    ensures Follows(t, t, [])
  {
    assert t.trace + [] == t.trace;
  }

  lemma EmitFollows(t: Track, e: Event)
    requires t.failed.None?
    ensures Follows(t, Emit(t, e), [e])
  {
    assert [e][..1] == [e];
  }

  lemma SendHandFollows(t: Track, p: Params, step: Step, w: World)
    requires t.failed.None? && p.mode.Action? && |HandPart(p, step)| > 0
    ensures Follows(t, SendHand(t, step, step.hand.value, w), HandPart(p, step))
    ensures SendHand(t, step, step.hand.value, w).failed == HandSendError(p, step, w)
  {
    var goal := HandGoal(step.hand.value, step.handSec);
    if |step.hand.value| == 6 {
      SendFollows(t, goal, w.handSending);
    } else {
      assert [goal][..0] == [] && t.trace + [] == t.trace;
    }
  }

  lemma MoveHandFollows(t: Track, p: Params, step: Step, w: World)
    requires t.failed.None? && |HandPart(p, step)| > 0
    ensures Follows(t, MoveHand(t, p, step, step.hand.value, w), HandPart(p, step))
    ensures MoveHand(t, p, step, step.hand.value, w).failed == HandError(p, step, w)
  {
    if p.mode.Action? {
      SendHandFollows(t, p, step, w);
    } else {
      EmitFollows(t, HandTopic(step.hand.value, step.handSec));
    }
  }

  lemma WaitFollows(t: Track, p: Params, step: Step)
    requires t.failed.None? && |HandPart(p, step)| > 0
    ensures Follows(t, HandWait(t, p, step), WaitPart(p, step)) && HandWait(t, p, step).failed.None?
    ensures Follows(t, Gap(t, step), GapPart(p, step)) && Gap(t, step).failed.None?
  {
    NothingFollows(t);
    EmitFollows(t, Sleep(Max(0.0, step.handSec)));
    EmitFollows(t, Sleep(step.gapSec));
  }

  lemma HandAndWaitFollows(t: Track, p: Params, step: Step, w: World)
    requires t.failed.None? && |HandPart(p, step)| > 0
    ensures var after := HandWait(MoveHand(t, p, step, step.hand.value, w), p, step);
            Follows(t, after, HandPart(p, step) + WaitPart(p, step)) && after.failed == HandError(p, step, w)
  {
    var moved := MoveHand(t, p, step, step.hand.value, w);
    MoveHandFollows(t, p, step, w);
    if moved.failed.None? {
      WaitFollows(moved, p, step);
    }
    FollowsThen(t, moved, HandWait(moved, p, step), HandPart(p, step), WaitPart(p, step));
  }

  // ------------------------------------------------------------------ the orders

  lemma ParallelFollows(t: Track, p: Params, step: Step, pose: Pose, w: World)
    requires t.failed.None? && |HandPart(p, step)| > 0 && step.order.Parallel? && p.mode.Action?
    ensures var t' := MoveBoth(t, p, step, pose, step.hand.value, w);
            Follows(t, t', Script(p, step, Some(pose))) && t'.failed == ScriptError(p, step, Some(pose), w)
  {
    var goal, hand := ArmGoal(pose, step.sec), HandPart(p, step);
    var sent := Send(t, goal, w.armSending);
    SendFollows(t, goal, w.armSending);
    var both := SendHand(sent, step, step.hand.value, w);
    if sent.failed.None? {
      SendHandFollows(sent, p, step, w);
    }
    FollowsThen(t, sent, both, [goal], hand);
    var moved := AwaitArm(both, pose, w.armDone);
    if both.failed.None? {
      AwaitArmFollows(both, pose, w.armDone);
    }
    FollowsThen(t, both, moved, [goal] + hand, [ArmReached(pose)]);
    assert Script(p, step, Some(pose)) == [goal] + hand + [ArmReached(pose)];
  }

  lemma ArmFirstFollows(t: Track, p: Params, step: Step, pose: Pose, w: World)
    requires t.failed.None? && |HandPart(p, step)| > 0 && step.order.ArmThenHand?
    ensures var t' := MoveBoth(t, p, step, pose, step.hand.value, w);
            Follows(t, t', Script(p, step, Some(pose))) && t'.failed == ScriptError(p, step, Some(pose), w)
  {
    var arm, gap := ArmPart(step, Some(pose)), GapPart(p, step);
    var moved := MoveArm(t, step, pose, w);
    MoveArmFollows(t, step, pose, w);
    var waited := Gap(moved, step);
    if moved.failed.None? {
      WaitFollows(moved, p, step);
    }
    FollowsThen(t, moved, waited, arm, gap);
    if waited.failed.None? {
      HandAndWaitFollows(waited, p, step, w);
    }
    FollowsThen(t, waited, HandWait(MoveHand(waited, p, step, step.hand.value, w), p, step), arm + gap,
      HandPart(p, step) + WaitPart(p, step));
  }

  lemma HandFirstFollows(t: Track, p: Params, step: Step, pose: Pose, w: World)
    requires t.failed.None? && |HandPart(p, step)| > 0 && step.order.HandThenArm?
    ensures var t' := MoveBoth(t, p, step, pose, step.hand.value, w);
            Follows(t, t', Script(p, step, Some(pose))) && t'.failed == ScriptError(p, step, Some(pose), w)
  {
    var hand, gap := HandPart(p, step) + WaitPart(p, step), GapPart(p, step);
    var moved := HandWait(MoveHand(t, p, step, step.hand.value, w), p, step);
    HandAndWaitFollows(t, p, step, w);
    var waited := Gap(moved, step);
    if moved.failed.None? {
      WaitFollows(moved, p, step);
    }
    FollowsThen(t, moved, waited, hand, gap);
    if waited.failed.None? {
      MoveArmFollows(waited, step, pose, w);
    }
    FollowsThen(t, waited, MoveArm(waited, step, pose, w), hand + gap, ArmPart(step, Some(pose)));
  }

  lemma TopicFollows(t: Track, p: Params, step: Step, pose: Pose, w: World)
    requires t.failed.None? && |HandPart(p, step)| > 0 && step.order.Parallel? && p.mode.Topic?
    ensures var t' := MoveBoth(t, p, step, pose, step.hand.value, w);
            Follows(t, t', Script(p, step, Some(pose))) && t'.failed == ScriptError(p, step, Some(pose), w)
  {
    var moved := MoveArm(t, step, pose, w);
    MoveArmFollows(t, step, pose, w);
    if moved.failed.None? {
      HandAndWaitFollows(moved, p, step, w);
    }
    FollowsThen(t, moved, HandWait(MoveHand(moved, p, step, step.hand.value, w), p, step),
      ArmPart(step, Some(pose)), HandPart(p, step) + WaitPart(p, step));
  }

  lemma MoveBothFollows(t: Track, p: Params, step: Step, pose: Pose, w: World)
    requires t.failed.None? && |HandPart(p, step)| > 0
    ensures var t' := MoveBoth(t, p, step, pose, step.hand.value, w);
            Follows(t, t', Script(p, step, Some(pose))) && t'.failed == ScriptError(p, step, Some(pose), w)
  {
    match step.order
    case Parallel =>
      if p.mode.Action? {
        ParallelFollows(t, p, step, pose, w);
      } else {
        TopicFollows(t, p, step, pose, w);
      }
    case HandThenArm => HandFirstFollows(t, p, step, pose, w);
    case ArmThenHand => ArmFirstFollows(t, p, step, pose, w);
  }

  // ------------------------------------------------------------------ steps of a run

  /** The pose that step k may command, if it is an arm step whose pose was let pass. */
  function PoseOfStep(t: Track, p: Params, steps: seq<Step>, worlds: nat -> World, k: nat): Option<Pose>
    requires k < |steps|
  {
    if steps[k].hasPose && Commands(t, p, steps, worlds, k).Ok? then Some(Commands(t, p, steps, worlds, k).value)
    else None
  }

  /** An arm step whose pose was refused does nothing. */
  predicate Refused(t: Track, p: Params, steps: seq<Step>, worlds: nat -> World, k: nat)
    requires k < |steps|
  {
    steps[k].hasPose && Commands(t, p, steps, worlds, k).Err?
  }

  function ScriptOf(t: Track, p: Params, steps: seq<Step>, worlds: nat -> World, k: nat): seq<Event>
    requires k < |steps|
  {
    if Refused(t, p, steps, worlds, k) then [] else Script(p, steps[k], PoseOfStep(t, p, steps, worlds, k))
  }

  lemma HandStepFollows(t: Track, p: Params, step: Step, w: World)
    requires t.failed.None? && !step.hasPose
    ensures var t' := Perform(t, p, step, w);
            Follows(t, t', Script(p, step, None)) && t'.failed == ScriptError(p, step, None, w)
  {
    NothingFollows(t);
    if |HandPart(p, step)| > 0 {
      HandAndWaitFollows(t, p, step, w);
    }
  }

  lemma ArmStepFollows(t: Track, p: Params, step: Step, pose: Pose, w: World)
    requires t.failed.None?
    ensures var t' := if |HandPart(p, step)| > 0 then MoveBoth(t, p, step, pose, step.hand.value, w)
                      else MoveArm(t, step, pose, w);
            Follows(t, t', Script(p, step, Some(pose))) && t'.failed == ScriptError(p, step, Some(pose), w)
  {
    if |HandPart(p, step)| > 0 {
      MoveBothFollows(t, p, step, pose, w);
    } else {
      MoveArmFollows(t, step, pose, w);
    }
  }

  lemma SameFollows(t: Track, u: Track, t': Track, script: seq<Event>)
    requires Follows(u, t', script) && t.trace == u.trace
    ensures Follows(t, t', script)
  {
  }

  /** The k-th step appends the first events of its script, all of them if it does not fail; it fails exactly if
      its pose is refused or one of its parts fails, with the exception of the first part that does. */
  lemma StepFollowsScript(t: Track, p: Params, steps: seq<Step>, worlds: nat -> World, k: nat)
    requires k < |steps| && Run(t, p, steps, worlds, k).failed.None?
    ensures var before, after := Run(t, p, steps, worlds, k), Run(t, p, steps, worlds, k + 1);
            && Follows(before, after, ScriptOf(t, p, steps, worlds, k))
            && after.failed
               == if Refused(t, p, steps, worlds, k) then Some(Commands(t, p, steps, worlds, k).error)
                  else ScriptError(p, steps[k], PoseOfStep(t, p, steps, worlds, k), worlds(k))
  {
    var before, after := Run(t, p, steps, worlds, k), Run(t, p, steps, worlds, k + 1);
    var step, w := steps[k], worlds(k);
    RunNext(t, p, steps, worlds, k);
    if !step.hasPose {
      HandStepFollows(before, p, step, w);
    } else {
      var asking := Asking(t, p, steps, worlds, k);
      var checked := asking.(live := Deliver(asking.live, w.late));
      if Refused(t, p, steps, worlds, k) {
        NothingFollows(checked);
        assert checked.trace + [] == checked.trace;
      } else {
        ArmStepFollows(checked, p, step, Commands(t, p, steps, worlds, k).value, w);
        SameFollows(before, checked, after, Script(p, step, PoseOfStep(t, p, steps, worlds, k)));
      }
    }
  }

  /** The events that step k appends. */
  function Added(t: Track, p: Params, steps: seq<Step>, worlds: nat -> World, k: nat): seq<Event>
    requires k < |steps| && Run(t, p, steps, worlds, k).failed.None?
    requires |Run(t, p, steps, worlds, k).trace| <= |Run(t, p, steps, worlds, k + 1).trace|
  {
    Run(t, p, steps, worlds, k + 1).trace[|Run(t, p, steps, worlds, k).trace|..]
  }

  /** No event of the hand stands before the arm has arrived. */
  predicate ArmBeforeHand(added: seq<Event>, pose: Pose) {
    forall j | 0 <= j < |added| && IsHand(added[j]) :: ArmReached(pose) in added[..j]
  }

  /** The arm does not start before the hand's command has been sent. */
  predicate HandBeforeArm(added: seq<Event>) {
    forall j | 0 <= j < |added| && added[j].ArmGoal? :: exists i | 0 <= i < j :: IsHand(added[i])
  }

  /** The arm has not arrived before both goals have been sent. */
  predicate Together(added: seq<Event>, pose: Pose, sec: real) {
    forall j | 0 <= j < |added| && added[j].ArmReached? ::
      ArmGoal(pose, sec) in added[..j] && exists i | 0 <= i < j :: IsHand(added[i])
  }

  predicate InOrder(p: Params, step: Step, added: seq<Event>, pose: Pose) {
    match step.order
    case ArmThenHand => ArmBeforeHand(added, pose)
    case HandThenArm => HandBeforeArm(added)
    case Parallel => p.mode.Action? ==> Together(added, pose, step.sec)
  }

  lemma ScriptOrder(p: Params, step: Step, pose: Pose, added: seq<Event>)
    requires !p.skipHand && step.hand.Some? && added <= Script(p, step, Some(pose))
    ensures InOrder(p, step, added, pose)
  {
    var script, n := Script(p, step, Some(pose)), |added|;
    if step.order.ArmThenHand? {
      assert script[1] == ArmReached(pose) && !IsHand(script[0]);
      forall j | 0 <= j < n && IsHand(added[j]) ensures ArmReached(pose) in added[..j] {
        assert added[..j][1] == ArmReached(pose);
      }
    } else if step.order.HandThenArm? {
      assert IsHand(script[0]);
      forall j | 0 <= j < n && added[j].ArmGoal? ensures exists i | 0 <= i < j :: IsHand(added[i]) {
        assert 0 <= 0 < j && IsHand(added[0]);
      }
    } else if p.mode.Action? {
      assert script == [ArmGoal(pose, step.sec), script[1], ArmReached(pose)] && IsHand(script[1]);
      forall j | 0 <= j < n && added[j].ArmReached?
        ensures ArmGoal(pose, step.sec) in added[..j] && exists i | 0 <= i < j :: IsHand(added[i])
      {
        assert added[..j][0] == ArmGoal(pose, step.sec) && 0 <= 1 < j && IsHand(added[1]);
      }
    }
  }

  lemma FollowsAdds(t: Track, t': Track, script: seq<Event>)
    requires Follows(t, t', script)
    ensures t'.trace[|t.trace|..] <= script
  {
  }

  lemma AddedFromScript(t: Track, p: Params, steps: seq<Step>, worlds: nat -> World, k: nat)
    requires k < |steps| && Run(t, p, steps, worlds, k).failed.None?
    requires steps[k].hasPose && Commands(t, p, steps, worlds, k).Ok?
    ensures |Run(t, p, steps, worlds, k).trace| <= |Run(t, p, steps, worlds, k + 1).trace|
    ensures Added(t, p, steps, worlds, k) <= Script(p, steps[k], Some(Commands(t, p, steps, worlds, k).value))
  {
    StepFollowsScript(t, p, steps, worlds, k);
    FollowsAdds(Run(t, p, steps, worlds, k), Run(t, p, steps, worlds, k + 1), ScriptOf(t, p, steps, worlds, k));
  }

  /** The order of a step that moves both, whether it fails or not: under arm_then_hand the hand is sent nothing
      before the arm has arrived, under hand_then_arm the arm is sent nothing before the hand, and in parallel
      both goals are sent before the arm has arrived. */
  lemma StepOrder(t: Track, p: Params, steps: seq<Step>, worlds: nat -> World, k: nat)
    requires k < |steps| && Run(t, p, steps, worlds, k).failed.None?
    requires steps[k].hasPose && Commands(t, p, steps, worlds, k).Ok? && !p.skipHand && steps[k].hand.Some?
    ensures |Run(t, p, steps, worlds, k).trace| <= |Run(t, p, steps, worlds, k + 1).trace|
    ensures InOrder(p, steps[k], Added(t, p, steps, worlds, k), Commands(t, p, steps, worlds, k).value)
  {
    var pose := Commands(t, p, steps, worlds, k).value;
    AddedFromScript(t, p, steps, worlds, k);
    ScriptOrder(p, steps[k], pose, Added(t, p, steps, worlds, k));
  }

  function HandEvents(trace: seq<Event>): seq<Event> {
    if |trace| == 0 then []
    else HandEvents(trace[..|trace| - 1]) + if IsHand(trace[|trace| - 1]) then [trace[|trace| - 1]] else []
  }

  lemma {:induction false} HandEventsAdd(s: seq<Event>, t: seq<Event>)
    ensures HandEvents(s + t) == HandEvents(s) + HandEvents(t)
  {
    if |t| == 0 {
      assert s + t == s;
    } else {
      HandEventsAdd(s, t[..|t| - 1]);
      assert (s + t)[..|s + t| - 1] == s + t[..|t| - 1];
    }
  }

  predicate NoHands(s: seq<Event>) {
    forall i | 0 <= i < |s| :: !IsHand(s[i])
  }

  lemma {:induction false} NoHandEvents(s: seq<Event>)
    requires NoHands(s)
    ensures HandEvents(s) == []
  {
    if |s| > 0 {
      NoHandEvents(s[..|s| - 1]);
    }
  }

  lemma HandPartOnce(p: Params, step: Step)
    ensures HandEvents(HandPart(p, step)) == HandPart(p, step)
  {
    if |HandPart(p, step)| > 0 {
      assert HandPart(p, step)[..0] == [];
    }
  }

  lemma HandInside(s: seq<Event>, hand: seq<Event>, t: seq<Event>)
    requires NoHands(s) && NoHands(t) && HandEvents(hand) == hand
    ensures HandEvents(s + hand + t) == hand
  {
    HandEventsAdd(s + hand, t);
    HandEventsAdd(s, hand);
    NoHandEvents(s);
    NoHandEvents(t);
  }

  lemma Regroup(hand: seq<Event>, arm: seq<Event>, wait: seq<Event>, gap: seq<Event>)
    requires NoHands(arm) && NoHands(wait) && NoHands(gap)
    ensures [] + hand + wait == hand + wait && (|hand| == 0 ==> [] + hand + arm == arm)
    ensures [] + hand + (wait + gap + arm) == hand + wait + gap + arm && NoHands(wait + gap + arm)
    ensures arm + gap + hand + wait == arm + gap + (hand + wait) && NoHands(arm + gap)
    ensures arm + hand + wait == arm + (hand + wait)
  {
  }

  lemma ScriptAround(p: Params, step: Step, pose: Option<Pose>) returns (s: seq<Event>, t: seq<Event>)
    ensures Script(p, step, pose) == s + HandPart(p, step) + t && NoHands(s) && NoHands(t)
  {
    var hand, arm, wait, gap := HandPart(p, step), ArmPart(step, pose), WaitPart(p, step), GapPart(p, step);
    Regroup(hand, arm, wait, gap);
    if pose.None? {
      s, t := [], wait;
    } else if |hand| == 0 {
      s, t := [], arm;
    } else {
      match step.order
      case HandThenArm => s, t := [], wait + gap + arm;
      case ArmThenHand => s, t := arm + gap, wait;
      case Parallel => if p.mode.Action? { s, t := [arm[0]], [arm[1]]; } else { s, t := arm, wait; }
    }
  }

  lemma ScriptHand(p: Params, step: Step, pose: Option<Pose>)
    ensures HandEvents(Script(p, step, pose)) == HandPart(p, step)
  {
    var s, t := ScriptAround(p, step, pose);
    HandPartOnce(p, step);
    HandInside(s, HandPart(p, step), t);
  }

  /** A step that goes through sends the hand exactly one command, with its positions and its time, unless it has
      none or hands are skipped. */
  lemma StepHand(t: Track, p: Params, steps: seq<Step>, worlds: nat -> World, k: nat)
    requires k < |steps| && Run(t, p, steps, worlds, k).failed.None? && Run(t, p, steps, worlds, k + 1).failed.None?
    ensures |Run(t, p, steps, worlds, k).trace| <= |Run(t, p, steps, worlds, k + 1).trace|
    ensures HandEvents(Added(t, p, steps, worlds, k))
            == if p.skipHand || steps[k].hand.None? then []
               else if p.mode.Action? then [HandGoal(steps[k].hand.value, steps[k].handSec)]
               else [HandTopic(steps[k].hand.value, steps[k].handSec)]
  {
    StepFollowsScript(t, p, steps, worlds, k);
    ScriptHand(p, steps[k], PoseOfStep(t, p, steps, worlds, k));
    var script := ScriptOf(t, p, steps, worlds, k);
    assert script[..|script|] == script;
    assert Added(t, p, steps, worlds, k) == script;
  }

  // ------------------------------------------------------------------ whole runs

  function ScriptsOf(t: Track, p: Params, steps: seq<Step>, worlds: nat -> World): nat -> seq<Event> {
    (k: nat) => if k < |steps| then ScriptOf(t, p, steps, worlds, k) else []
  }

  /** A run's trace is a beginning of the scripts of its steps one after the other, all of them if nothing failed. */
  predicate Scripted(start: Track, r: Track, scripts: seq<Event>) {
    r.trace <= start.trace + scripts && (r.failed.None? ==> r.trace == start.trace + scripts)
  }

  lemma ScriptedNext(start: Track, before: Track, after: Track, scripts: seq<Event>, script: seq<Event>)
    requires Scripted(start, before, scripts)
    requires if before.failed.None? then Follows(before, after, script) else after == before
    ensures Scripted(start, after, scripts + script)
  {
    assert start.trace + (scripts + script) == start.trace + scripts + script;
  }

  /** Turn k appends the first events of part k, or nothing any more. */
  predicate Goes(t: Track, turn: (Track, nat) -> Track, part: nat -> seq<Event>, k: nat) {
    var before, after := Turns(t, turn, k), Turns(t, turn, k + 1);
    if before.failed.None? then Follows(before, after, part(k)) else after == before
  }

  ghost predicate AlwaysGoes(t: Track, turn: (Track, nat) -> Track, part: nat -> seq<Event>, n: nat) {
    forall k: nat | k < n :: Goes(t, turn, part, k)
  }

  lemma {:induction false} ScriptedThroughout(
    t: Track, turn: (Track, nat) -> Track, part: nat -> seq<Event>, n: nat)
    requires AlwaysGoes(t, turn, part, n)
    ensures Scripted(t, Turns(t, turn, n), Joined(part, n))
  {
    if n == 0 {
      assert t.trace + [] == t.trace;
    } else {
      ScriptedThroughout(t, turn, part, n - 1);
      assert Goes(t, turn, part, n - 1);
      ScriptedNext(t, Turns(t, turn, n - 1), Turns(t, turn, n), Joined(part, n - 1), part(n - 1));
    }
  }

  lemma StepGoes(t: Track, p: Params, steps: seq<Step>, worlds: nat -> World, k: nat)
    requires k < |steps|
    ensures Goes(t, TurnOf(p, steps, worlds), ScriptsOf(t, p, steps, worlds), k)
  {
    if Run(t, p, steps, worlds, k).failed.None? {
      StepFollowsScript(t, p, steps, worlds, k);
    } else {
      FailedStays(t, p, steps, worlds, k);
    }
  }

  lemma StepsGo(t: Track, p: Params, steps: seq<Step>, worlds: nat -> World, n: nat)
    requires n <= |steps|
    ensures AlwaysGoes(t, TurnOf(p, steps, worlds), ScriptsOf(t, p, steps, worlds), n)
  {
    forall k: nat | k < n ensures Goes(t, TurnOf(p, steps, worlds), ScriptsOf(t, p, steps, worlds), k) {
      StepGoes(t, p, steps, worlds, k);
    }
  }

  /** Over every step list: all events of a run, in order, are those its steps' scripts say. */
  lemma RunFollowsScripts(t: Track, p: Params, steps: seq<Step>, worlds: nat -> World, k: nat)
    requires k <= |steps|
    ensures Scripted(t, Run(t, p, steps, worlds, k), Joined(ScriptsOf(t, p, steps, worlds), k))
  {
    StepsGo(t, p, steps, worlds, k);
    ScriptedThroughout(t, TurnOf(p, steps, worlds), ScriptsOf(t, p, steps, worlds), k);
  }

  // ------------------------------------------------------------------ the live pose

  /** Joint states count from the last one that names all arm joints. */
  predicate LastComplete(msgs: seq<JointState>, pose: Pose, i: nat) {
    i < |msgs| && ArmOnly(msgs[i]) == Some(pose) && forall j | i < j < |msgs| :: ArmOnly(msgs[j]).None?
  }

  /** The live pose before, if no message is complete, or else that of the last one that is. */
  ghost predicate Latest(live: Option<Pose>, msgs: seq<JointState>, r: Option<Pose>) {
    || (r == live && forall i | 0 <= i < |msgs| :: ArmOnly(msgs[i]).None?)
    || (r.Some? && exists i: nat :: LastComplete(msgs, r.value, i))
  }

  lemma LatestNext(live: Option<Pose>, msgs: seq<JointState>, r: Option<Pose>, msg: JointState)
    requires Latest(live, msgs, r)
    ensures Latest(live, msgs + [msg], if ArmOnly(msg).Some? then ArmOnly(msg) else r)
  {
    if ArmOnly(msg).Some? {
      assert LastComplete(msgs + [msg], ArmOnly(msg).value, |msgs|);
    } else if r.Some? && exists i: nat :: LastComplete(msgs, r.value, i) {
      var i: nat :| LastComplete(msgs, r.value, i);
      assert LastComplete(msgs + [msg], r.value, i);
    }
  }

  lemma {:induction false} DeliversLast(live: Option<Pose>, msgs: seq<JointState>)
    ensures Latest(live, msgs, Deliver(live, msgs))
  {
    if |msgs| > 0 {
      var n := |msgs| - 1;
      DeliversLast(live, msgs[..n]);
      LatestNext(live, msgs[..n], Deliver(live, msgs[..n]), msgs[n]);
      assert msgs == msgs[..n] + [msgs[n]];
    }
  }

  lemma {:induction false} DeliverAdds(live: Option<Pose>, s: seq<JointState>, t: seq<JointState>)
    ensures Deliver(live, s + t) == Deliver(Deliver(live, s), t)
  {
    if |t| == 0 {
      assert s + t == s;
    } else {
      DeliverAdds(live, s, t[..|t| - 1]);
      assert (s + t)[..|s + t| - 1] == s + t[..|t| - 1];
    }
  }

  /** What arrived during step k, as far as the run got to it. */
  function HeardIn(t: Track, p: Params, steps: seq<Step>, worlds: nat -> World): nat -> seq<JointState> {
    (k: nat) =>
      if k < |steps| && steps[k].hasPose && Run(t, p, steps, worlds, k).failed.None?
      then worlds(k).early + worlds(k).late else []
  }

  lemma PartsKeepLive(t: Track, p: Params, step: Step, pose: Pose, hand: seq<real>, w: World)
    ensures MoveArm(t, step, pose, w).live == t.live
    ensures MoveHand(t, p, step, hand, w).live == t.live
    ensures HandWait(t, p, step).live == t.live && Gap(t, step).live == t.live
    ensures AwaitHand(AwaitArm(SendHand(Send(t, ArmGoal(pose, step.sec), w.armSending), step, hand, w), pose,
                               w.armDone), w.handDone).live == t.live
  {
  }

  lemma MoveBothKeepsLive(t: Track, p: Params, step: Step, pose: Pose, hand: seq<real>, w: World)
    ensures MoveBoth(t, p, step, pose, hand, w).live == t.live
  {
    var armed, handed := MoveArm(t, step, pose, w), HandWait(MoveHand(t, p, step, hand, w), p, step);
    PartsKeepLive(t, p, step, pose, hand, w);
    PartsKeepLive(armed, p, step, pose, hand, w);
    PartsKeepLive(MoveHand(armed, p, step, hand, w), p, step, pose, hand, w);
    PartsKeepLive(Gap(armed, step), p, step, pose, hand, w);
    PartsKeepLive(MoveHand(Gap(armed, step), p, step, hand, w), p, step, pose, hand, w);
    PartsKeepLive(MoveHand(t, p, step, hand, w), p, step, pose, hand, w);
    PartsKeepLive(handed, p, step, pose, hand, w);
    PartsKeepLive(Gap(handed, step), p, step, pose, hand, w);
  }

  lemma PerformHears(t: Track, p: Params, step: Step, w: World)
    requires t.failed.None?
    ensures Perform(t, p, step, w).live == if step.hasPose then Deliver(t.live, w.early + w.late) else t.live
  {
    var hand := Hand(p, step);
    DeliverAdds(t.live, w.early, w.late);
    if !step.hasPose {
      if hand.Some? {
        PartsKeepLive(t, p, step, [0.0, 0.0, 0.0, 0.0, 0.0, 0.0], hand.value, w);
        PartsKeepLive(MoveHand(t, p, step, hand.value, w), p, step, [0.0, 0.0, 0.0, 0.0, 0.0, 0.0], hand.value, w);
      }
    } else {
      var seeded := t.(live := Deliver(t.live, w.early));
      var checked := seeded.(live := Deliver(seeded.live, w.late));
      var pose := Guarded(seeded, p, step, w);
      if pose.Ok? {
        PartsKeepLive(checked, p, step, pose.value, if hand.Some? then hand.value else [], w);
        MoveBothKeepsLive(checked, p, step, pose.value, if hand.Some? then hand.value else [], w);
      }
    }
  }

  predicate Hears(t: Track, turn: (Track, nat) -> Track, heard: nat -> seq<JointState>, k: nat) {
    Turns(t, turn, k + 1).live == Deliver(Turns(t, turn, k).live, heard(k))
  }

  ghost predicate AlwaysHears(t: Track, turn: (Track, nat) -> Track, heard: nat -> seq<JointState>, n: nat) {
    forall k: nat | k < n :: Hears(t, turn, heard, k)
  }

  lemma {:induction false} HeardThroughout(
    t: Track, turn: (Track, nat) -> Track, heard: nat -> seq<JointState>, n: nat)
    requires AlwaysHears(t, turn, heard, n)
    ensures Turns(t, turn, n).live == Deliver(t.live, Joined(heard, n))
  {
    if n > 0 {
      HeardThroughout(t, turn, heard, n - 1);
      assert Hears(t, turn, heard, n - 1);
      DeliverAdds(t.live, Joined(heard, n - 1), heard(n - 1));
    }
  }

  lemma StepHears(t: Track, p: Params, steps: seq<Step>, worlds: nat -> World, k: nat)
    requires k < |steps|
    ensures Hears(t, TurnOf(p, steps, worlds), HeardIn(t, p, steps, worlds), k)
  {
    if Run(t, p, steps, worlds, k).failed.None? {
      RunNext(t, p, steps, worlds, k);
      PerformHears(Run(t, p, steps, worlds, k), p, steps[k], worlds(k));
    } else {
      FailedStays(t, p, steps, worlds, k);
    }
  }

  lemma StepsHear(t: Track, p: Params, steps: seq<Step>, worlds: nat -> World, n: nat)
    requires n <= |steps|
    ensures AlwaysHears(t, TurnOf(p, steps, worlds), HeardIn(t, p, steps, worlds), n)
  {
    forall k: nat | k < n ensures Hears(t, TurnOf(p, steps, worlds), HeardIn(t, p, steps, worlds), k) {
      StepHears(t, p, steps, worlds, k);
    }
  }

  /** The live pose is what all joint states heard so far deliver: by DeliversLast that of the last complete one. */
  lemma LiveIsLatest(t: Track, p: Params, steps: seq<Step>, worlds: nat -> World, k: nat)
    requires k <= |steps|
    ensures Run(t, p, steps, worlds, k).live == Deliver(t.live, Joined(HeardIn(t, p, steps, worlds), k))
  {
    StepsHear(t, p, steps, worlds, k);
    HeardThroughout(t, TurnOf(p, steps, worlds), HeardIn(t, p, steps, worlds), k);
  }
}

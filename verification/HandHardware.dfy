/** The ros2_control hardware component of one hand: limits, scaling and the goal it sends. */
module HandHardware {
  import opened Numbers

  const FINGERS := 6
  const DEFAULT_DURATION := 10

  /** The motion parameters as configured and as kept after init_parameters. */
  datatype Params = Params(
    duration: nat, commandScale: real, stateScale: real, velocityScale: real, min: real, max: real)

  function NonZero(x: real): real {
    if x == 0.0 then 1.0 else x
  }

  /** A negative minimum counts as 0, crossed limits as exchanged, a zero scale as 1. */
  function Normalised(p: Params): Params {
    var low := Max(p.min, 0.0);
    Params(
      if p.duration == 0 then DEFAULT_DURATION else if p.duration > 65535 then 65535 else p.duration,
      NonZero(p.commandScale), NonZero(p.stateScale), NonZero(p.velocityScale), Min(low, p.max), Max(low, p.max))
  }

  predicate Normal(p: Params) {
    && 1 <= p.duration <= 65535
    && p.commandScale != 0.0 && p.stateScale != 0.0 && p.velocityScale != 0.0
    && p.min <= p.max
  }

  lemma NormalisedIsNormal(p: Params)
    ensures Normal(Normalised(p))
    ensures Normal(p) && p.min >= 0.0 ==> Normalised(p) == p
  {
  }

  function Desired(p: Params, command: real): real {
    command * p.commandScale
  }

  function Rounded(p: Params, command: real): int {
    LRound(Clamp(Desired(p, command), p.min, p.max))
  }

  /** static_cast<uint16_t>. */
  function Goal(p: Params, command: real): nat {
    Rounded(p, command) % 0x1_0000
  }

  function Goals(p: Params, commands: seq<real>): (r: seq<nat>)
    ensures |r| == if |commands| < FINGERS then |commands| else FINGERS
  {
    seq(if |commands| < FINGERS then |commands| else FINGERS, i requires 0 <= i < |commands| => Goal(p, commands[i]))
  }

  lemma GoalsSnoc(p: Params, commands: seq<real>, command: real)
    requires |commands| < FINGERS
    ensures Goals(p, commands + [command]) == Goals(p, commands) + [Goal(p, command)]
  {
  }

  /** The scaled command, clamped, rounded and cut to 16 bits. */
  predicate IsGoal(p: Params, command: real, goal: nat) {
    goal == LRound(Clamp(command * p.commandScale, p.min, p.max)) % 0x1_0000
  }

  predicate AreGoals(p: Params, commands: seq<real>, goals: seq<nat>) {
    && |goals| == (if |commands| < 6 then |commands| else 6)
    && forall i | 0 <= i < |goals| ::
         IsGoal(p, commands[i], goals[i])
  }

  lemma GoalIs(p: Params, command: real)
    ensures IsGoal(p, command, Goal(p, command))
  {
    assert Desired(p, command) == command * p.commandScale;
  }

  lemma GoalsAreGoals(p: Params, commands: seq<real>)
    ensures AreGoals(p, commands, Goals(p, commands))
  {
    var goals := Goals(p, commands);
    forall i | 0 <= i < |goals| ensures IsGoal(p, commands[i], goals[i]) {
      GoalIs(p, commands[i]);
    }
  }

  function Durations(p: Params, n: nat): seq<nat> {
    seq(n, _ => p.duration)
  }

  function Position(p: Params, raw: nat): real {
    raw as real * p.stateScale
  }

  function Velocity(p: Params, raw: int): real {
    raw as real * p.velocityScale
  }

  // ------------------------------------------------------------------ the goal and the limits

  lemma LRoundMonotone(x: real, y: real)
    requires x <= y
    ensures LRound(x) <= LRound(y)
  {
  }

  function CommandFor(p: Params, target: real): real
    requires p.commandScale != 0.0
  {
    target / p.commandScale
  }

  lemma CommandForReaches(p: Params, target: real)
    requires p.commandScale != 0.0 && p.min <= target <= p.max
    ensures Rounded(p, CommandFor(p, target)) == LRound(target)
  {
    assert target / p.commandScale * p.commandScale == target;
  }

  predicate LimitsFit(configured: Params) {
    -0.5 < configured.max < 65535.5 && configured.min < 65535.5
  }

  /** A goal position is the rounded command for every command, never wrapped to 16 bits, exactly if the
      configured maximum is above -1/2 and both configured limits are below 65535 1/2. */
  lemma NoWrapIff(configured: Params)
    ensures (forall command: real :: 0 <= Rounded(Normalised(configured), command) <= 65535)
            <==> LimitsFit(configured)
  {
    var p := Normalised(configured);
    if -0.5 < p.min && p.max < 65535.5 {
      forall command: real ensures 0 <= Rounded(p, command) <= 65535 {
        var x := Clamp(Desired(p, command), p.min, p.max);
        LRoundMonotone(p.min, x);
        LRoundMonotone(x, p.max);
      }
    } else if p.max >= 65535.5 {
      CommandForReaches(p, p.max);
      assert Rounded(p, CommandFor(p, p.max)) > 65535;
    } else {
      CommandForReaches(p, p.min);
      assert Rounded(p, CommandFor(p, p.min)) < 0;
    }
  }

  /** How far scaling a position to radians and back moves it, in raw units. */
  function Drift(p: Params, raw: nat): real {
    Desired(p, Position(p, raw)) - raw as real
  }

  /** The clamped value is at least, or more than, a bound. */
  predicate AtLeast(p: Params, x: real, bound: real) {
    p.max >= bound && (x >= bound || p.min >= bound)
  }

  predicate Beyond(p: Params, x: real, bound: real) {
    p.max > bound && (x > bound || p.min > bound)
  }

  /** The clamped value lies in the window of a number: halves belong to the number farther from zero. */
  predicate RoundsTo(p: Params, x: real, n: int) {
    var low, high := n as real - 0.5, n as real + 0.5;
    if n > 0 then AtLeast(p, x, low) && !AtLeast(p, x, high)
    else if n == 0 then Beyond(p, x, low) && !AtLeast(p, x, high)
    else Beyond(p, x, low) && !Beyond(p, x, high)
  }

  lemma ClampRoundsTo(p: Params, x: real, n: int)
    requires p.min <= p.max
    ensures LRound(Clamp(x, p.min, p.max)) == n <==> RoundsTo(p, x, n)
  {
  }

  /** The number that is raw after w turns of the 16-bit counter. */
  function Turned(raw: nat, w: int): int {
    raw + 0x1_0000 * w
  }

  lemma TurnedModulo(n: int, raw: nat)
    requires raw <= 65535
    ensures n % 0x1_0000 == raw <==> exists w: int :: n == Turned(raw, w)
  {
    if n % 0x1_0000 == raw {
      assert n == Turned(raw, n / 0x1_0000);
    }
  }

  predicate InLimits(p: Params, raw: nat) {
    p.min <= raw as real <= p.max
  }

  /** When sending back the position just read gives the same raw number, for every 16-bit number and all
      parameters: if the scaled position, clamped, lies in the window of a number that is raw after whole
      turns of the counter. */
  lemma ResendsIff(configured: Params, raw: nat)
    requires raw <= 65535
    ensures var p := Normalised(configured);
            Goal(p, Position(p, raw)) == raw
            <==> exists w: int :: RoundsTo(p, Desired(p, Position(p, raw)), Turned(raw, w))
  {
    var p := Normalised(configured);
    NormalisedIsNormal(configured);
    var x := Desired(p, Position(p, raw));
    TurnedModulo(Rounded(p, Position(p, raw)), raw);
    forall w: int ensures Rounded(p, Position(p, raw)) == Turned(raw, w) <==> RoundsTo(p, x, Turned(raw, w)) {
      ClampRoundsTo(p, x, Turned(raw, w));
    }
  }

  lemma NothingStaysNothing(p: Params)
    ensures Desired(p, Position(p, 0)) == 0.0
  {
  }

  /** With limits that fit into 16 bits no turns remain; a position inside them is sent back exactly if
      scaling moves it by less than half a unit or the limit on that side is nearer than that. */
  lemma ResendsInLimitsIff(configured: Params, raw: nat)
    requires raw <= 65535 && LimitsFit(configured)
    ensures var p := Normalised(configured);
            Goal(p, Position(p, raw)) == raw <==> RoundsTo(p, Desired(p, Position(p, raw)), raw)
    ensures var p := Normalised(configured);
            InLimits(p, raw) ==>
              (Goal(p, Position(p, raw)) == raw
               <==> && (Drift(p, raw) < 0.5 || p.max < raw as real + 0.5)
                    && (Drift(p, raw) >= -0.5 || p.min >= raw as real - 0.5))
  {
    var p := Normalised(configured);
    NormalisedIsNormal(configured);
    NoWrapIff(configured);
    assert 0 <= Rounded(p, Position(p, raw)) <= 65535;
    ClampRoundsTo(p, Desired(p, Position(p, raw)), raw);
    NothingStaysNothing(p);
  }

  /** How far the product of the scales is from 1, times the largest position. */
  function Tolerance(p: Params): real {
    Abs(p.stateScale * p.commandScale - 1.0) * p.max
  }

  lemma DriftForm(r: real, s: real, c: real)
    ensures r * s * c - r == (s * c - 1.0) * r
  {
    assert r * s * c == (s * c) * r;
  }

  lemma Monotone(a: real, x: real, y: real)
    requires a >= 0.0 && x <= y
    ensures a * x <= a * y
  {
  }

  lemma Magnitude(e: real, r: real)
    requires r >= 0.0
    ensures -(Abs(e) * r) <= e * r <= Abs(e) * r
  {
    if e >= 0.0 {
      assert e * r >= 0.0;
    } else {
      assert (-e) * r == -(e * r) >= 0.0;
    }
  }

  lemma DriftBound(p: Params, raw: nat)
    requires raw as real <= p.max && Tolerance(p) < 0.5
    ensures -0.5 < Drift(p, raw) < 0.5
  {
    var r, sc := raw as real, p.stateScale * p.commandScale;
    DriftForm(r, p.stateScale, p.commandScale);
    Monotone(Abs(sc - 1.0), r, p.max);
    Magnitude(sc - 1.0, r);
  }

  /** Activating and writing after a read resends every raw position inside the limits if the product of
      the scales is within less than 1 / (2 max) of 1. */
  lemma HoldsPosition(configured: Params, raw: nat)
    requires raw <= 65535 && LimitsFit(configured) && InLimits(Normalised(configured), raw)
    requires Tolerance(Normalised(configured)) < 0.5
    ensures Goal(Normalised(configured), Position(Normalised(configured), raw)) == raw
  {
    DriftBound(Normalised(configured), raw);
    ResendsInLimitsIff(configured, raw);
  }

  // ------------------------------------------------------------------ the component

  datatype Return = OK | ERROR

  datatype MotorStatus = MotorStatus(positions: seq<nat>, speeds: seq<int>, states: seq<nat>)

  /** The six positions, six durations and six-at-most count handed to the API. */
  datatype Sent = Sent(positions: seq<nat>, durations: seq<nat>)

  class Hardware {
    var config: Params
    var isActive: bool
    const positions: array<real>
    const velocities: array<real>
    const commands: array<real>
    const motorStates: array<nat>

    predicate Valid()
      reads this
    {
      && positions != velocities && positions != commands && velocities != commands
      && positions.Length == velocities.Length == commands.Length == motorStates.Length
    }

    /** The tail of init_parameters, on the parsed values. */
    method InitParameters(parsed: Params)
      modifies this`config
      ensures config == Normalised(parsed)
      ensures config.duration == if parsed.duration == 0 then 10 else if parsed.duration > 65535 then 65535
                                 else parsed.duration
      ensures config.commandScale == if parsed.commandScale == 0.0 then 1.0 else parsed.commandScale
      ensures config.stateScale == if parsed.stateScale == 0.0 then 1.0 else parsed.stateScale
      ensures config.velocityScale == if parsed.velocityScale == 0.0 then 1.0 else parsed.velocityScale
      ensures var low := if parsed.min < 0.0 then 0.0 else parsed.min;
              config.min <= config.max && {config.min, config.max} == {low, parsed.max}
    {
      config := parsed.(duration := if parsed.duration < 65535 then parsed.duration else 65535);
      if config.duration == 0 {
        config := config.(duration := DEFAULT_DURATION);
      }
      if config.min < 0.0 {
        config := config.(min := 0.0);
      }
      if config.min > config.max {
        config := config.(min := config.max, max := config.min);
      }
      if config.commandScale == 0.0 {
        config := config.(commandScale := 1.0);
      }
      if config.stateScale == 0.0 {
        config := config.(stateScale := 1.0);
      }
      if config.velocityScale == 0.0 {
        config := config.(velocityScale := 1.0);
      }
    }

    /** on_init: parameters, then one zero per joint in each vector. */
    constructor (configured: Params, joints: nat)
      ensures Valid() && config == Normalised(configured) && !isActive
      ensures positions.Length == joints
      ensures fresh(positions) && fresh(velocities) && fresh(commands) && fresh(motorStates)
      ensures forall i | 0 <= i < joints :: positions[i] == 0.0 && commands[i] == 0.0
    {
      isActive := false;
      positions := new real[joints](_ => 0.0);
      velocities := new real[joints](_ => 0.0);
      commands := new real[joints](_ => 0.0);
      motorStates := new nat[joints](_ => 0);
      config := configured;
      new;
      InitParameters(configured);
    }

    function Joints(): nat
      reads this
    {
      if positions.Length < FINGERS then positions.Length else FINGERS
    }

    /** on_activate: the commands start where the fingers are. */
    method OnActivate(isOpen: bool) returns (r: Return)
      requires Valid()
      modifies this`isActive, commands
      ensures r == if isOpen then OK else ERROR
      ensures isActive == (old(isActive) || isOpen)
      ensures commands[..] == if isOpen then positions[..] else old(commands[..])
    {
      if !isOpen {
        return ERROR;
      }
      for i := 0 to positions.Length
        invariant commands[..i] == positions[..i]
      {
        commands[i] := positions[i];
      }
      assert commands[..] == commands[..positions.Length] && positions[..] == positions[..positions.Length];
      isActive := true;
      r := OK;
    }

    method OnDeactivate()
      modifies this`isActive
      ensures !isActive
    {
      isActive := false;
    }

    ghost predicate Decoded(s: MotorStatus, n: nat)
      requires Valid() && n <= Joints() && n <= |s.positions| && n <= |s.speeds| && n <= |s.states|
      reads this, positions, velocities, motorStates
    {
      forall i | 0 <= i < n ::
        && positions[i] == Position(config, s.positions[i])
        && velocities[i] == Velocity(config, s.speeds[i])
        && motorStates[i] == s.states[i]
    }

    /** read: the first six joints take over the scaled status, the others stay. */
    method Read(isOpen: bool, hasStatus: bool, status: MotorStatus) returns (r: Return)
      requires Valid() && |status.positions| == |status.speeds| == |status.states| == FINGERS
      modifies positions, velocities, motorStates
      ensures r == if isOpen && hasStatus then OK else ERROR
      ensures r.OK? ==> Decoded(status, Joints())
      ensures r.OK? ==> forall i | 0 <= i < positions.Length && i < 6 ::
                && positions[i] == status.positions[i] as real * config.stateScale
                && velocities[i] == status.speeds[i] as real * config.velocityScale
                && motorStates[i] == status.states[i]
      ensures forall i | (if r.OK? then Joints() else 0) <= i < positions.Length ::
                && positions[i] == old(positions[i]) && velocities[i] == old(velocities[i])
                && motorStates[i] == old(motorStates[i])
    {
      if !isOpen || !hasStatus {
        return ERROR;
      }
      for i := 0 to Joints()
        invariant Decoded(status, i)
        invariant forall k | i <= k < positions.Length ::
                    && positions[k] == old(positions[k]) && velocities[k] == old(velocities[k])
                    && motorStates[k] == old(motorStates[k])
      {
        positions[i] := Position(config, status.positions[i]);
        velocities[i] := Velocity(config, status.speeds[i]);
        motorStates[i] := status.states[i];
      }
      r := OK;
    }

    method GoalOf(i: nat) returns (goal: nat)
      requires i < commands.Length
      ensures goal == Goal(config, commands[i])
    {
      var desired := Desired(config, commands[i]);
      var clamped := Clamp(desired, config.min, config.max);
      goal := LRound(clamped) % 0x1_0000;
    }

    /** write: only an open and active component sends, one goal and one duration per joint, at most six. */
    method Write(isOpen: bool, accepted: bool) returns (r: Return, sent: Sent)
      requires Valid()
      ensures r == if !isOpen || (isActive && Joints() > 0 && !accepted) then ERROR else OK
      ensures sent.positions == if isOpen && isActive then Goals(config, commands[..]) else []
      ensures sent.durations == Durations(config, |sent.positions|)
      ensures if isOpen && isActive then AreGoals(config, commands[..], sent.positions) else sent.positions == []
      ensures |sent.durations| == |sent.positions|
      ensures forall i | 0 <= i < |sent.durations| :: sent.durations[i] == config.duration
    {
      sent := Sent([], []);
      GoalsAreGoals(config, commands[..]);
      if !isOpen {
        return ERROR, sent;
      }
      if !isActive || Joints() == 0 {
        return OK, sent;
      }
      var goals, durations := [], [];
      for i := 0 to Joints()
        invariant goals == Goals(config, commands[..i])
        invariant durations == Durations(config, i)
      {
        var goal := GoalOf(i);
        GoalsSnoc(config, commands[..i], commands[i]);
        assert commands[..i] + [commands[i]] == commands[..i + 1];
        goals := goals + [goal];
        durations := durations + [config.duration];
      }
      assert Goals(config, commands[..]) == Goals(config, commands[..Joints()]);
      sent := Sent(goals, durations);
      r := if accepted then OK else ERROR;
    }
  }
}

/** No jump at activation, across driver, master and slave: the first write after on_activate sends the
    positions that on_activate read, joint by joint. */
module ActivationHold {
  import opened Numbers
  import opened Bytes
  import opened Flattening
  import opened Revo2Codec
  import opened Revo2Slave
  import opened EthercatDriver
  import opened BusCycle

  /** Six joints with one command and three states each. */
  predicate HandInterfaces(commandCounts: seq<nat>, stateCounts: seq<nat>) {
    && |commandCounts| == |stateCounts| == NUM_FINGER_MOTORS
    && (forall j | 0 <= j < NUM_FINGER_MOTORS :: commandCounts[j] == 1)
    && (forall j | 0 <= j < NUM_FINGER_MOTORS :: stateCounts[j] == 3)
  }

  /** The driver's prefix-sum offsets are the indices the slave's interface mapping hard-codes. */
  lemma SlaveIndices(commandCounts: seq<nat>, stateCounts: seq<nat>, j: nat)
    requires HandInterfaces(commandCounts, stateCounts) && j <= NUM_FINGER_MOTORS
    ensures Offset(commandCounts, j) == j && Offset(stateCounts, j) == 3 * j
  {
    UniformOffset(commandCounts, 1, j);
    UniformOffset(stateCounts, 3, j);
  }

  /** Joint j's command after on_activate is the position state the bus delivered for it. */
  lemma HeldCommand(commandCounts: seq<nat>, stateCounts: seq<nat>, states: seq<Double>, j: nat)
    requires HandInterfaces(commandCounts, stateCounts) && |states| == Sum(stateCounts) && j < NUM_FINGER_MOTORS
    ensures |states| == 18
    ensures HoldCommands(commandCounts, Scatter(stateCounts, states))[j] == [states[3 * j]]
  {
    SlaveIndices(commandCounts, stateCounts, j);
    SlaveIndices(commandCounts, stateCounts, NUM_FINGER_MOTORS);
    assert stateCounts[..NUM_FINGER_MOTORS] == stateCounts;
    assert Scatter(stateCounts, states)[j] == Part(stateCounts, states, j);
  }

  /** What a later write gathers for joint j from finite commands of one interface each. */
  lemma GatheredCommand(
    commands: seq<seq<Double>>, commandCounts: seq<nat>, stateCounts: seq<nat>, states: seq<Double>, j: nat)
    requires HandInterfaces(commandCounts, stateCounts) && HasShape(commands, commandCounts)
    requires AllFinite(commands) && j < NUM_FINGER_MOTORS
    ensures var flat := Gather(Resolved(commands, stateCounts, states));
            |flat| == NUM_FINGER_MOTORS && flat[j] == commands[j][0]
  {
    FiniteCommandsPassThrough(commands, commandCounts, stateCounts, states);
    var flat := Gather(Resolved(commands, stateCounts, states));
    SlaveIndices(commandCounts, stateCounts, j);
    SlaveIndices(commandCounts, stateCounts, NUM_FINGER_MOTORS);
    assert commandCounts[..NUM_FINGER_MOTORS] == commandCounts;
    assert Scatter(commandCounts, flat)[j] == Part(commandCounts, flat, j);
  }

  /** The aggregated commands of the first write after on_activate read the given states, when no
      controller has written a command and the states have since become atWrite. */
  function FirstWrite(
    commandCounts: seq<nat>, stateCounts: seq<nat>, states: seq<Double>, atWrite: seq<Double>): seq<Double>
    requires |commandCounts| == |stateCounts| && |states| == Sum(stateCounts)
  {
    Gather(Resolved(HoldCommands(commandCounts, Scatter(stateCounts, states)), stateCounts, atWrite))
  }

  /** After an activation that decoded finite positions, the first write gathers exactly them. */
  lemma HeldThenGathered(
    commandCounts: seq<nat>, stateCounts: seq<nat>, states: seq<Double>, atWrite: seq<Double>, j: nat)
    requires HandInterfaces(commandCounts, stateCounts) && |states| == 18 == Sum(stateCounts) && j < NUM_FINGER_MOTORS
    requires forall i | 0 <= i < NUM_FINGER_MOTORS :: states[3 * i].Fin?
    ensures var flat := FirstWrite(commandCounts, stateCounts, states, atWrite);
            |flat| == NUM_FINGER_MOTORS && flat[j] == states[3 * j]
  {
    var held: seq<seq<Double>> := HoldCommands(commandCounts, Scatter(stateCounts, states));
    forall i | 0 <= i < NUM_FINGER_MOTORS ensures held[i] == [states[3 * i]] {
      HeldCommand(commandCounts, stateCounts, states, i);
    }
    GatheredCommand(held, commandCounts, stateCounts, atWrite, j);
  }

  lemma SendsWhatItHolds(cfg: Config, commands: seq<Double>, s: SlaveState, offsets: seq<nat>, j: nat, raw: nat)
    requires Mapped(cfg, offsets, s) && Disjoint(offsets) && j < NUM_FINGER_MOTORS && j < |commands|
    requires commands[j] == Fin(DecodePosition(raw, cfg.physical))
    ensures raw < 0x1_0000 ==>
              (SentPosition(Cycle(cfg, commands, s, offsets, |offsets|).image, offsets, j) == raw
               <==> cfg.physical || 1 <= raw <= 1000)
  {
    SentTarget(cfg, commands, s, offsets, j);
    if raw < 0x1_0000 {
      EncodeDecoded(raw, cfg.physical);
    }
  }

  /** on_activate runs a bus cycle on the image it received and holds what it decoded.  Whatever the bus
      delivers afterwards, the first write with no controller command puts into output channel 1 of
      finger j the very word that input channel 7 carried at activation, exactly when the device counts
      physically or that word is in the per-mille range 1 to 1000. */
  lemma NoJumpAtActivation(
    cfg: Config, commandCounts: seq<nat>, stateCounts: seq<nat>, offsets: seq<nat>,
    unset: seq<Double>, atActivation: SlaveState, atWrite: SlaveState, j: nat)
    requires HandInterfaces(commandCounts, stateCounts) && j < NUM_FINGER_MOTORS
    requires Mapped(cfg, offsets, atActivation) && Mapped(cfg, offsets, atWrite) && Disjoint(offsets)
    requires |atActivation.states| == |atWrite.states| == 18 == Sum(stateCounts)
    ensures var read := Cycle(cfg, unset, atActivation, offsets, |offsets|);
            var commands := FirstWrite(commandCounts, stateCounts, read.states, atWrite.states);
            var sent := Cycle(cfg, commands, atWrite, offsets, |offsets|);
            var raw := ReceivedPosition(atActivation.image, offsets, j);
            SentPosition(sent.image, offsets, j) == raw <==> cfg.physical || 1 <= raw <= 1000
  {
    var read := Cycle(cfg, unset, atActivation, offsets, |offsets|);
    forall i | 0 <= i < NUM_FINGER_MOTORS ensures read.states[3 * i].Fin? {
      DecodedPosition(cfg, unset, atActivation, offsets, i);
    }
    DecodedPosition(cfg, unset, atActivation, offsets, j);
    HeldThenGathered(commandCounts, stateCounts, read.states, atWrite.states, j);
    SendsWhatItHolds(cfg, FirstWrite(commandCounts, stateCounts, read.states, atWrite.states), atWrite, offsets, j,
      ReceivedPosition(atActivation.image, offsets, j));
    WordAtValue(ChannelAt(atActivation.image, offsets, 7), 2 * j);
  }
}

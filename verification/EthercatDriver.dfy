/** The buffers of the EtherCAT driver: on_init lays them out, on_activate fills them from the bus,
    read scatters the aggregated states, write gathers the commands.  The single module is bound to
    the two aggregated buffers, so they are arrays shared with it. */
module EthercatDriver {
  import opened Numbers
  import opened Flattening

  /** write's fallback: a non-finite command takes the state at the same place, if there is one. */
  function Resolve(command: Double, states: seq<Double>, p: nat): Double {
    if command.NonFinite? && p < |states| then states[p] else command
  }

  function ResolvedRow(
    commands: seq<seq<Double>>, stateCounts: seq<nat>, states: seq<Double>, j: nat): (row: seq<Double>)
    requires |commands| == |stateCounts| && j < |commands|
    ensures |row| == |commands[j]|
  {
    seq(|commands[j]|, i requires 0 <= i < |commands[j]| =>
      Resolve(commands[j][i], states, Offset(stateCounts, j) + i))
  }

  /** The commands write puts on the bus, joint by joint. */
  function Resolved(commands: seq<seq<Double>>, stateCounts: seq<nat>, states: seq<Double>): (m: seq<seq<Double>>)
    requires |commands| == |stateCounts|
    ensures |m| == |commands| && forall j | 0 <= j < |m| :: |m[j]| == |commands[j]|
  {
    seq(|commands|, j requires 0 <= j < |commands| => ResolvedRow(commands, stateCounts, states, j))
  }

  function HoldJoint(count: nat, states: seq<Double>): (row: seq<Double>)
    ensures |row| == count
  {
    seq(count, i requires 0 <= i < count => if i < |states| then states[i] else NonFinite)
  }

  /** The commands on_activate starts a joint with: its own states of the same index. */
  function HoldCommands(commandCounts: seq<nat>, states: seq<seq<Double>>): (m: seq<seq<Double>>)
    requires |commandCounts| == |states|
    ensures |m| == |states| && forall j | 0 <= j < |m| :: m[j] == HoldJoint(commandCounts[j], states[j])
  {
    seq(|states|, j requires 0 <= j < |states| => HoldJoint(commandCounts[j], states[j]))
  }

  lemma GatherOneMore<T>(m: seq<seq<T>>, j: nat)
    requires j < |m|
    ensures Gather(m[..j + 1]) == Gather(m[..j]) + m[j]
  {
    assert m[..j + 1][..j] == m[..j];
  }

  lemma GatherAll<T>(m: seq<seq<T>>, counts: seq<nat>)
    requires |m| == |counts|
    ensures Gather(m[..|m|]) == Gather(m) && Offset(counts, |m|) == Sum(counts)
  {
    assert m[..|m|] == m && counts[..|m|] == counts;
  }

  class Driver {
    const commandCounts: seq<nat>
    const stateCounts: seq<nat>
    const commandOffsets: seq<nat>
    const stateOffsets: seq<nat>
    const aggCommands: array<Double>
    const aggStates: array<Double>
    var hwCommands: seq<seq<Double>>
    var hwStates: seq<seq<Double>>

    /** What on_init fixed. */
    ghost predicate LaidOut() {
      && |commandCounts| == |stateCounts| == |commandOffsets| == |stateOffsets|
      && (forall j | 0 <= j < |commandCounts| :: commandOffsets[j] == Offset(commandCounts, j))
      && (forall j | 0 <= j < |stateCounts| :: stateOffsets[j] == Offset(stateCounts, j))
      && aggCommands.Length == Sum(commandCounts) && aggStates.Length == Sum(stateCounts)
      && aggCommands != aggStates
    }

    ghost predicate Valid()
      reads this
    {
      LaidOut() && HasShape(hwCommands, commandCounts) && HasShape(hwStates, stateCounts)
    }

    constructor OnInit(commandCounts: seq<nat>, stateCounts: seq<nat>)
      requires |commandCounts| == |stateCounts|
      ensures Valid() && fresh(aggCommands) && fresh(aggStates)
      ensures this.commandCounts == commandCounts && this.stateCounts == stateCounts
      ensures forall v | v in aggCommands[..] + aggStates[..] :: v == NonFinite
      ensures forall j, v | 0 <= j < |hwCommands| && v in hwCommands[j] + hwStates[j] :: v == NonFinite
    {
      var totalCommands, totalStates := 0, 0;
      var cmdOffsets, stOffsets: seq<nat> := [], [];
      for j := 0 to |commandCounts|
        invariant |cmdOffsets| == |stOffsets| == j
        invariant totalCommands == Offset(commandCounts, j) && totalStates == Offset(stateCounts, j)
        invariant forall k | 0 <= k < j :: cmdOffsets[k] == Offset(commandCounts, k)
        invariant forall k | 0 <= k < j :: stOffsets[k] == Offset(stateCounts, k)
      {
        cmdOffsets, stOffsets := cmdOffsets + [totalCommands], stOffsets + [totalStates];
        OffsetStep(commandCounts, j);
        OffsetStep(stateCounts, j);
        totalCommands, totalStates := totalCommands + commandCounts[j], totalStates + stateCounts[j];
      }
      assert commandCounts[..|commandCounts|] == commandCounts && stateCounts[..|stateCounts|] == stateCounts;
      this.commandCounts, this.stateCounts := commandCounts, stateCounts;
      commandOffsets, stateOffsets := cmdOffsets, stOffsets;
      hwCommands := seq(|commandCounts|, j requires 0 <= j < |commandCounts| => seq(commandCounts[j], _ => NonFinite));
      hwStates := seq(|stateCounts|, j requires 0 <= j < |stateCounts| => seq(stateCounts[j], _ => NonFinite));
      aggCommands := new Double[totalCommands](_ => NonFinite);
      aggStates := new Double[totalStates](_ => NonFinite);
    }

    /** One joint's share of the aggregated states. */
    method CopyJointStates(j: nat)
      requires Valid() && j < |stateCounts|
      modifies this`hwStates
      ensures Valid() && |hwStates| == old(|hwStates|)
      ensures hwStates[j] == Part(stateCounts, aggStates[..], j)
      ensures forall k | 0 <= k < |hwStates| && k != j :: hwStates[k] == old(hwStates[k])
    {
      var base := stateOffsets[j];
      PartInside(stateCounts, j);
      ghost var part := Part(stateCounts, aggStates[..], j);
      for i := 0 to stateCounts[j]
        invariant |hwStates| == old(|hwStates|) && |hwStates[j]| == stateCounts[j]
        invariant forall k | 0 <= k < |hwStates| && k != j :: hwStates[k] == old(hwStates[k])
        invariant hwStates[j][..i] == part[..i]
      {
        assert part[i] == aggStates[base + i];
        if base + i < aggStates.Length {
          hwStates := hwStates[j := hwStates[j][i := aggStates[base + i]]];
        }
      }
    }

    /** read, after its checks and the bus cycle: the joints see the aggregated states. */
    method ReadStates()
      requires Valid()
      modifies this`hwStates
      ensures Valid() && hwStates == Scatter(stateCounts, aggStates[..])
    {
      for j := 0 to |stateCounts|
        invariant Valid()
        invariant forall k | 0 <= k < j :: hwStates[k] == Part(stateCounts, aggStates[..], k)
      {
        CopyJointStates(j);
      }
    }

    /** One joint's share of write's gathering loop. */
    method GatherJoint(j: nat, ghost row: seq<Double>)
      requires Valid() && j < |commandCounts| && row == ResolvedRow(hwCommands, stateCounts, aggStates[..], j)
      requires Offset(commandCounts, j) <= aggCommands.Length
      modifies aggCommands
      ensures Offset(commandCounts, j + 1) <= aggCommands.Length
      ensures aggCommands[..Offset(commandCounts, j + 1)] == old(aggCommands[..Offset(commandCounts, j)]) + row
    {
      var commandBase, stateBase := commandOffsets[j], stateOffsets[j];
      PartInside(commandCounts, j);
      OffsetStep(commandCounts, j);
      for i := 0 to commandCounts[j]
        invariant aggCommands[..commandBase + i] == old(aggCommands[..commandBase]) + row[..i]
        invariant aggStates[..] == old(aggStates[..])
      {
        if commandBase + i < aggCommands.Length {
          var command := hwCommands[j][i];
          if command.NonFinite? {
            if stateBase + i < aggStates.Length {
              command := aggStates[stateBase + i];
            }
          }
          aggCommands[commandBase + i] := command;
          assert command == row[i];
        }
        assert aggCommands[..commandBase + i + 1] == aggCommands[..commandBase + i] + [row[i]];
      }
    }

    /** write, after its checks and before the bus cycle. */
    method GatherCommands()
      requires Valid()
      modifies aggCommands
      ensures aggCommands[..] == Gather(Resolved(hwCommands, stateCounts, aggStates[..]))
    {
      ghost var m := Resolved(hwCommands, stateCounts, aggStates[..]);
      for j := 0 to |commandCounts|
        invariant Offset(commandCounts, j) <= aggCommands.Length
        invariant aggCommands[..Offset(commandCounts, j)] == Gather(m[..j])
        invariant aggStates[..] == old(aggStates[..])
      {
        GatherJoint(j, m[j]);
        GatherOneMore(m, j);
      }
      GatherAll(m, commandCounts);
    }

    /** One joint's share of on_activate's second loop: its command is its own state. */
    method InitJointCommands(j: nat)
      requires Valid() && j < |commandCounts| && Offset(commandCounts, j) <= aggCommands.Length
      modifies this`hwCommands, aggCommands
      ensures Valid() && |hwCommands| == old(|hwCommands|)
      ensures hwCommands[j] == HoldJoint(commandCounts[j], hwStates[j])
      ensures forall k | 0 <= k < |hwCommands| && k != j :: hwCommands[k] == old(hwCommands[k])
      ensures Offset(commandCounts, j + 1) <= aggCommands.Length
      ensures aggCommands[..Offset(commandCounts, j + 1)]
           == old(aggCommands[..Offset(commandCounts, j)]) + HoldJoint(commandCounts[j], hwStates[j])
    {
      var commandBase := commandOffsets[j];
      PartInside(commandCounts, j);
      OffsetStep(commandCounts, j);
      ghost var row := HoldJoint(commandCounts[j], hwStates[j]);
      for i := 0 to commandCounts[j]
        invariant |hwCommands| == old(|hwCommands|) && |hwCommands[j]| == commandCounts[j]
        invariant forall k | 0 <= k < |hwCommands| && k != j :: hwCommands[k] == old(hwCommands[k])
        invariant hwCommands[j][..i] == row[..i]
        invariant aggCommands[..commandBase + i] == old(aggCommands[..commandBase]) + row[..i]
      {
        var init := NonFinite;
        if i < |hwStates[j]| {
          init := hwStates[j][i];
        }
        hwCommands := hwCommands[j := hwCommands[j][i := init]];
        if commandBase + i < aggCommands.Length {
          aggCommands[commandBase + i] := init;
        }
        assert aggCommands[..commandBase + i + 1] == aggCommands[..commandBase + i] + [row[i]];
      }
    }

    method InitJoint(j: nat, ghost states: seq<Double>, ghost commands: seq<Double>)
      requires Valid() && j < |commandCounts| && Offset(commandCounts, j) <= aggCommands.Length
      requires states == Part(stateCounts, aggStates[..], j) && commands == HoldJoint(commandCounts[j], states)
      modifies this`hwStates, this`hwCommands, aggCommands
      ensures Valid() && |hwStates| == old(|hwStates|) && |hwCommands| == old(|hwCommands|)
      ensures aggStates[..] == old(aggStates[..])
      ensures hwStates == old(hwStates)[j := states] && hwCommands == old(hwCommands)[j := commands]
      ensures Offset(commandCounts, j + 1) <= aggCommands.Length
      ensures aggCommands[..Offset(commandCounts, j + 1)]
           == old(aggCommands[..Offset(commandCounts, j)]) + commands
    {
      CopyJointStates(j);
      InitJointCommands(j);
    }

    /** The first j joints have arrived at the rows they should hold. */
    ghost predicate Arrived(states: seq<seq<Double>>, commands: seq<seq<Double>>, j: nat)
      requires Valid() && j <= |states| == |commands| == |stateCounts|
      reads this, aggCommands
    {
      && (forall k: nat | k < j :: hwStates[k] == states[k])
      && (forall k: nat | k < j :: hwCommands[k] == commands[k])
      && Offset(commandCounts, j) <= aggCommands.Length
      && aggCommands[..Offset(commandCounts, j)] == Gather(commands[..j])
    }

    method InitTurn(j: nat, ghost states: seq<seq<Double>>, ghost commands: seq<seq<Double>>)
      requires Valid() && j < |states| == |commands| == |stateCounts| && Arrived(states, commands, j)
      requires states[j] == Part(stateCounts, aggStates[..], j) && commands[j] == HoldJoint(commandCounts[j], states[j])
      modifies this`hwStates, this`hwCommands, aggCommands
      ensures Valid() && aggStates[..] == old(aggStates[..])
      ensures Arrived(states, commands, j + 1)
    {
      InitJoint(j, states[j], commands[j]);
      GatherOneMore(commands, j);
    }

    /** on_activate's second loop, for the rows it should arrive at. */
    method InitJoints(ghost states: seq<seq<Double>>, ghost commands: seq<seq<Double>>)
      requires Valid() && |states| == |commands| == |stateCounts|
      requires forall k | 0 <= k < |states| :: states[k] == Part(stateCounts, aggStates[..], k)
      requires forall k | 0 <= k < |states| :: commands[k] == HoldJoint(commandCounts[k], states[k])
      modifies this`hwStates, this`hwCommands, aggCommands
      ensures Valid() && aggStates[..] == old(aggStates[..])
      ensures hwStates == states && hwCommands == commands
      ensures aggCommands[..] == Gather(commands)
    {
      assert aggCommands[..0] == [];
      for j := 0 to |commandCounts|
        invariant Valid() && aggStates[..] == old(aggStates[..])
        invariant Arrived(states, commands, j)
      {
        InitTurn(j, states, commands);
      }
      GatherAll(commands, commandCounts);
      assert aggCommands[..] == aggCommands[..aggCommands.Length];
    }

    /** on_activate, after its first readData: every joint holds the state just read. */
    method InitCommands()
      requires Valid()
      modifies this`hwStates, this`hwCommands, aggCommands
      ensures Valid() && aggStates[..] == old(aggStates[..])
      ensures hwStates == Scatter(stateCounts, aggStates[..])
      ensures hwCommands == HoldCommands(commandCounts, hwStates)
      ensures aggCommands[..] == Gather(hwCommands)
      ensures forall j | 0 <= j < |commandCounts| ::
                |hwCommands[j]| == commandCounts[j]
                && forall i | 0 <= i < commandCounts[j] ::
                     hwCommands[j][i] == if i < stateCounts[j] then hwStates[j][i] else NonFinite
    {
      ghost var states := Scatter(stateCounts, aggStates[..]);
      ghost var commands := HoldCommands(commandCounts, states);
      InitJoints(states, commands);
    }
  }

  // ------------------------------------------------------------------ what the buffers mean

  ghost predicate AllFinite(m: seq<seq<Double>>) {
    forall j, i | 0 <= j < |m| && 0 <= i < |m[j]| :: m[j][i].Fin?
  }

  /** On finite commands the fallback is not used, and scattering what write gathered gives every
      joint its own commands back. */
  lemma FiniteCommandsPassThrough(
    commands: seq<seq<Double>>, counts: seq<nat>, stateCounts: seq<nat>, states: seq<Double>)
    requires HasShape(commands, counts) && |commands| == |stateCounts| && AllFinite(commands)
    ensures var flat := Gather(Resolved(commands, stateCounts, states));
            |flat| == Sum(counts) && Scatter(counts, flat) == commands
  {
    var m := Resolved(commands, stateCounts, states);
    forall j | 0 <= j < |m| ensures m[j] == commands[j] {
      assert forall i | 0 <= i < |m[j]| :: m[j][i] == commands[j][i];
    }
    assert m == commands;
    ScatterGather(commands, counts);
  }

  /** Which state replaces a non-finite command i of joint j inside the buffer: the joint's own of the same
      index exactly when the joint has a state of that index; otherwise a state of a later joint. */
  lemma FallbackOwner(commands: seq<seq<Double>>, stateCounts: seq<nat>, states: seq<Double>, j: nat, i: nat)
    returns (k: nat, m: nat)
    requires |commands| == |stateCounts| && |states| == Sum(stateCounts)
    requires j < |commands| && i < |commands[j]| && commands[j][i].NonFinite?
    requires Offset(stateCounts, j) + i < Sum(stateCounts)
    ensures k < |stateCounts| && m < stateCounts[k]
    ensures Resolved(commands, stateCounts, states)[j][i] == Scatter(stateCounts, states)[k][m]
    ensures k == j && m == i <==> i < stateCounts[j]
    ensures i >= stateCounts[j] ==> k > j
  {
    var p := Offset(stateCounts, j) + i;
    k, m := CellsCover(stateCounts, p);
    PartInside(stateCounts, k);
    assert Resolved(commands, stateCounts, states)[j][i] == states[p];
    assert Scatter(stateCounts, states)[k] == Part(stateCounts, states, k);
    if i < stateCounts[j] {
      CellsDisjoint(stateCounts, j, i, k, m);
    } else if k < j {
      OffsetStep(stateCounts, k);
      OffsetMonotone(stateCounts, k + 1, j);
    }
  }

  /** A command stays non-finite exactly if it was and the buffer has no finite state at its place. */
  lemma StaysNonFiniteIff(commands: seq<seq<Double>>, stateCounts: seq<nat>, states: seq<Double>, j: nat, i: nat)
    requires |commands| == |stateCounts| && j < |commands| && i < |commands[j]|
    ensures var p := Offset(stateCounts, j) + i;
            Resolved(commands, stateCounts, states)[j][i].NonFinite?
            <==> commands[j][i].NonFinite? && (p < |states| ==> states[p].NonFinite?)
  {
  }

  /** A first joint with two commands and one state: its second command follows the second joint's state. */
  lemma FallbackReadsNeighbour(own: real, other: real)
    ensures var commands := [[NonFinite, NonFinite], [NonFinite]];
            var states := [Fin(own), Fin(other)];
            && Sum([1, 1]) == |states|
            && Scatter([1, 1], states) == [[Fin(own)], [Fin(other)]]
            && Resolved(commands, [1, 1], states)[0] == [Fin(own), Fin(other)]
  {
    var counts: seq<nat>, states := [1, 1], [Fin(own), Fin(other)];
    assert Sum(counts[..0]) == 0;
    assert counts[..1] == [1] && [1][..0] == [] && Sum([1]) == 1;
    assert counts[..2] == counts && Sum(counts) == 2;
    assert Offset(counts, 0) == 0 && Offset(counts, 1) == 1;
    assert Scatter(counts, states)[0] == Part(counts, states, 0) == [Fin(own)];
    assert Scatter(counts, states)[1] == Part(counts, states, 1) == [Fin(other)];
    var row := ResolvedRow([[NonFinite, NonFinite], [NonFinite]], counts, states, 0);
    assert row[0] == Fin(own) && row[1] == Fin(other);
  }
}

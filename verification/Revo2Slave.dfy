/** The Revo2 slave: it serialises the aggregated commands into the output channels and decodes the
    input channels into the aggregated states, one channel at a time and in place. */
module Revo2Slave {
  import opened Numbers
  import opened Bytes
  import opened Revo2Codec

  /** What one processData call can see and change. */
  datatype SlaveState = SlaveState(image: seq<byte>, states: seq<Double>, positions: seq<real>)

  /** The channel lies inside the image; the state buffer's at() does not throw. */
  predicate Fits(cfg: Config, s: SlaveState, index: nat, at: nat) {
    && |s.positions| == NUM_FINGER_MOTORS
    && (index < NumChannels(cfg.touch) ==> at + ChannelBytes(index) <= |s.image|)
    && (7 <= index <= 9 ==> |s.states| >= 18)
  }

  function DecodedPositions(cfg: Config, image: seq<byte>, at: nat): (r: seq<real>)
    requires at + 12 <= |image|
    ensures |r| == NUM_FINGER_MOTORS
  {
    seq(NUM_FINGER_MOTORS, i requires 0 <= i < NUM_FINGER_MOTORS =>
      DecodePosition(WordAt(image, at + 2 * i), cfg.physical))
  }

  /** The effect of processData on channel index at a place in the image. */
  function Process(cfg: Config, commands: seq<Double>, s: SlaveState, index: nat, at: nat): (r: SlaveState)
    requires Fits(cfg, s, index, at)
    ensures |r.image| == |s.image| && |r.states| == |s.states| && |r.positions| == |s.positions|
  {
    if index < NUM_RX_CHANNELS then
      s.(image := Splice(s.image, at, RxPayload(cfg, TargetRaws(cfg, commands, s.states, s.positions), index)))
    else if index <= 9 then
      s.(states := Decoded(cfg, index, s.image, at, s.states, NUM_FINGER_MOTORS),
         positions := if index == 7 then DecodedPositions(cfg, s.image, at) else s.positions)
    else s
  }

  lemma OutsideChannel(cfg: Config, commands: seq<Double>, s: SlaveState, c: nat, at: nat, p: nat)
    requires c < NumChannels(cfg.touch) && Fits(cfg, s, c, at)
    requires p < |s.image| && !(at <= p < at + ChannelBytes(c))
    ensures Process(cfg, commands, s, c, at).image[p] == s.image[p]
  {
  }

  /** processData treats every channel as its sync manager's direction says: an output writes its own declared
      bytes and takes over no state, an input leaves the whole image alone. */
  lemma DirectionsRespected(cfg: Config, commands: seq<Double>, s: SlaveState, c: nat, at: nat, i: nat)
    requires c < NumChannels(cfg.touch) && Fits(cfg, s, c, at)
    requires i < |SyncManagers(cfg.touch)| && Carries(SyncManagers(cfg.touch)[i], c)
    ensures var direction, t := SyncManagers(cfg.touch)[i].direction, Process(cfg, commands, s, c, at);
            && !direction.Invalid?
            && (direction.Output? ==> t.states == s.states && t.positions == s.positions)
            && (direction.Input? ==> t.image == s.image)
            && (forall p | 0 <= p < |s.image| && !(at <= p < at + Channels(cfg.touch)[c].bits / 8) ::
                  t.image[p] == s.image[p])
  {
    SyncManagersCoverChannels(cfg.touch, c, i);
    ChannelsAreBytes(cfg.touch);
    forall p | 0 <= p < |s.image| && !(at <= p < at + Channels(cfg.touch)[c].bits / 8)
      ensures Process(cfg, commands, s, c, at).image[p] == s.image[p]
    {
      OutsideChannel(cfg, commands, s, c, at, p);
    }
  }

  lemma SpliceAppend(image: seq<byte>, at: nat, p: seq<byte>, q: seq<byte>)
    requires at + |p| + |q| <= |image|
    ensures Splice(Splice(image, at, p), at + |p|, q) == Splice(image, at, p + q)
  {
  }

  lemma OneWord(v: int)
    ensures Words([v]) == [(v % 0x1_0000) % 256, (v % 0x1_0000) / 256]
  {
    var u := v % 0x1_0000;
    assert Words([v]) == Words([v][..0]) + LeBytes(u, 2);
    assert LeBytes(u, 2) == [u % 256] + LeBytes(u / 256, 1);
    assert LeBytes(u / 256, 1) == [u / 256 % 256] + LeBytes(u / 256 / 256, 0);
  }

  lemma WordsPush(raws: seq<int>, v: int)
    ensures Words(raws + [v]) == Words(raws) + Words([v])
  {
    assert (raws + [v])[..|raws|] == raws && [v][..0] == [];
    assert Words([]) == [];
  }

  class Slave {
    const cfg: Config
    const states: array<Double>
    const commands: array<Double>
    var positions: seq<real>

    constructor (cfg: Config, states: array<Double>, commands: array<Double>)
      ensures this.cfg == cfg && this.states == states && this.commands == commands
      ensures positions == seq(NUM_FINGER_MOTORS, _ => 0.0)
    {
      this.cfg, this.states, this.commands := cfg, states, commands;
      positions := seq(NUM_FINGER_MOTORS, _ => 0.0);
    }

    ghost predicate Valid()
      reads this
    {
      states != commands && |positions| == NUM_FINGER_MOTORS
    }

    ghost function View(image: array<byte>): SlaveState
      reads this, image, states
    {
      SlaveState(image[..], states[..], positions)
    }

    /** EC_WRITE_U16 and EC_WRITE_S16. */
    static method WriteWord(image: array<byte>, at: nat, v: int)
      requires at + 2 <= image.Length
      modifies image
      ensures image[..] == Splice(old(image[..]), at, Words([v]))
    {
      var u := v % 0x1_0000;
      image[at] := u % 256;
      image[at + 1] := u / 256;
      OneWord(v);
    }

    /** EC_READ_U16. */
    static method ReadWord(image: array<byte>, at: nat) returns (raw: nat)
      requires at + 2 <= image.Length
      ensures raw == WordAt(image[..], at)
    {
      WordAtValue(image[..], at);
      raw := image[at] as int + 256 * image[at + 1] as int;
    }

    static method WriteWords(image: array<byte>, at: nat, v: int)
      requires at + 12 <= image.Length
      modifies image
      ensures image[..] == Splice(old(image[..]), at, Words(seq(NUM_FINGER_MOTORS, _ => v)))
    {
      ghost var vs := seq(NUM_FINGER_MOTORS, _ => v);
      for i := 0 to NUM_FINGER_MOTORS
        invariant image[..] == Splice(old(image[..]), at, Words(vs[..i]))
      {
        WriteWord(image, at + 2 * i, v);
        SpliceAppend(old(image[..]), at, Words(vs[..i]), Words([v]));
        WordsPush(vs[..i], v);
        assert vs[..i] + [v] == vs[..i + 1];
      }
      assert vs[..NUM_FINGER_MOTORS] == vs;
    }

    method EncodeTarget(i: nat) returns (raw: int)
      requires Valid() && i < NUM_FINGER_MOTORS
      ensures raw == TargetRaw(cfg, commands[..], states[..], positions, i)
    {
      raw := 0;
      if i < commands.Length {
        var command := commands[i];
        if command.NonFinite? {
          if 3 * i < states.Length {
            command := states[3 * i];
          } else {
            command := Fin(positions[i]);
          }
        }
        if command.Fin? {
          if cfg.physical {
            raw := ToInt16(LRound(RadToDeg(command.r)));
          } else {
            raw := RadianToRevo2(command.r);
          }
        } else {
          raw := cfg.undefinedRaw;
        }
      }
    }

    /** Finger i's target goes behind those already written. */
    method WriteTarget(image: array<byte>, at: nat, i: nat, ghost before: seq<byte>, ghost targets: seq<int>)
      requires Valid() && at + 12 <= image.Length == |before| && i < NUM_FINGER_MOTORS
      requires targets == TargetRaws(cfg, commands[..], states[..], positions)
      requires image[..] == Splice(before, at, Words(targets[..i]))
      modifies image
      ensures image[..] == Splice(before, at, Words(targets[..i + 1]))
    {
      var raw := EncodeTarget(i);
      WriteWord(image, at + 2 * i, raw);
      SpliceAppend(before, at, Words(targets[..i]), Words([raw]));
      WordsPush(targets[..i], raw);
      assert targets[..i] + [raw] == targets[..i + 1];
    }

    /** Channel 1. */
    method WriteTargets(image: array<byte>, at: nat)
      requires Valid() && at + 12 <= image.Length
      modifies image
      ensures image[..] == Splice(old(image[..]), at, Words(TargetRaws(cfg, commands[..], states[..], positions)))
    {
      ghost var before, targets := image[..], TargetRaws(cfg, commands[..], states[..], positions);
      for i := 0 to NUM_FINGER_MOTORS
        invariant image[..] == Splice(before, at, Words(targets[..i]))
      {
        WriteTarget(image, at, i, before, targets);
      }
      assert targets[..NUM_FINGER_MOTORS] == targets;
    }

    /** Channels 7 to 9. */
    method DecodeChannel(c: nat, image: array<byte>, at: nat)
      requires Valid() && 7 <= c <= 9 && at + 12 <= image.Length && states.Length >= 18
      modifies this`positions, states
      ensures states[..] == Decoded(cfg, c, image[..], at, old(states[..]), NUM_FINGER_MOTORS)
      ensures positions == if c == 7 then DecodedPositions(cfg, image[..], at) else old(positions)
    {
      ghost var bytes := image[..];
      ghost var before, decoded := states[..], DecodedPositions(cfg, bytes, at);
      for i := 0 to NUM_FINGER_MOTORS
        invariant states[..] == Decoded(cfg, c, bytes, at, before, i)
        invariant |positions| == NUM_FINGER_MOTORS && (c != 7 ==> positions == old(positions))
        invariant c == 7 ==> forall k | 0 <= k < i :: positions[k] == decoded[k]
      {
        var raw := ReadWord(image, at + 2 * i);
        var value := DecodeWord(cfg, c, raw);
        if c == 7 {
          positions := positions[i := value];
        }
        states[3 * i + (c - 7)] := Fin(value);
      }
      assert c == 7 ==> positions == decoded;
    }

    /** Channels outside 0 to 9 touch neither the image nor the interface buffers. */
    method ProcessData(index: nat, image: array<byte>, at: nat)
      requires Valid() && Fits(cfg, View(image), index, at)
      modifies this`positions, image, states
      ensures Valid()
      ensures View(image) == Process(cfg, commands[..], old(View(image)), index, at)
    {
      if index == 0 {
        WriteWord(image, at, MULTI_MODE_POSITION_TIME);
      } else if index == 1 {
        WriteTargets(image, at);
      } else if index == 2 {
        WriteWords(image, at, cfg.durationMs);
      } else if index == 3 || index == 4 {
        image[at] := 0;
      } else if index == 5 || index == 6 {
        WriteWord(image, at, 0);
      } else if index <= 9 {
        DecodeChannel(index, image, at);
      }
    }
  }
}

/** A bus cycle over all channels of the slave refines writing its output message in one piece, and decodes
    what it received. */
module BusCycle {
  import opened Numbers
  import opened Bytes
  import opened Revo2Codec
  import opened Revo2Slave

  /** Every channel has a place of its declared length inside the image. */
  predicate Mapped(cfg: Config, offsets: seq<nat>, s: SlaveState) {
    && |offsets| == NumChannels(cfg.touch)
    && |s.states| >= 18 && |s.positions| == NUM_FINGER_MOTORS
    && forall c | 0 <= c < |offsets| :: offsets[c] + ChannelBytes(c) <= |s.image|
  }

  /** The processing loop of readData and writeData up to channel n. */
  function Cycle(cfg: Config, commands: seq<Double>, s: SlaveState, offsets: seq<nat>, n: nat): (r: SlaveState)
    requires n <= |offsets| && Mapped(cfg, offsets, s)
    ensures |r.image| == |s.image| && |r.states| == |s.states| && |r.positions| == |s.positions|
  {
    if n == 0 then s
    else
      var t := Cycle(cfg, commands, s, offsets, n - 1);
      Process(cfg, commands, t, n - 1, offsets[n - 1])
  }

  method RunChannel(slave: Slave, image: array<byte>, offsets: seq<nat>, i: nat, ghost before: SlaveState)
    requires slave.Valid() && i < |offsets| && Mapped(slave.cfg, offsets, before)
    requires slave.View(image) == Cycle(slave.cfg, slave.commands[..], before, offsets, i)
    modifies slave`positions, image, slave.states
    ensures slave.Valid() && slave.commands[..] == old(slave.commands[..])
    ensures slave.View(image) == Cycle(slave.cfg, slave.commands[..], before, offsets, i + 1)
  {
    slave.ProcessData(i, image, offsets[i]);
  }

  method RunCycle(slave: Slave, image: array<byte>, offsets: seq<nat>)
    requires slave.Valid() && Mapped(slave.cfg, offsets, slave.View(image))
    modifies slave`positions, image, slave.states
    ensures slave.Valid()
    ensures slave.View(image) == Cycle(slave.cfg, slave.commands[..], old(slave.View(image)), offsets, |offsets|)
  {
    ghost var before := slave.View(image);
    for i := 0 to |offsets|
      invariant slave.Valid() && slave.commands[..] == old(slave.commands[..])
      invariant slave.View(image) == Cycle(slave.cfg, slave.commands[..], before, offsets, i)
    {
      RunChannel(slave, image, offsets, i, before);
    }
  }

  // ------------------------------------------------------------------ the layout of the domain

  predicate InChannel(offsets: seq<nat>, c: nat, p: nat)
    requires c < |offsets|
  {
    offsets[c] <= p < offsets[c] + ChannelBytes(c)
  }

  predicate Disjoint(offsets: seq<nat>) {
    forall c, d | 0 <= c < d < |offsets| ::
      offsets[c] + ChannelBytes(c) <= offsets[d] || offsets[d] + ChannelBytes(d) <= offsets[c]
  }

  function ChannelAt(image: seq<byte>, offsets: seq<nat>, c: nat): seq<byte>
    requires c < |offsets| && offsets[c] + ChannelBytes(c) <= |image|
  {
    image[offsets[c]..offsets[c] + ChannelBytes(c)]
  }

  // ------------------------------------------------------------------ the plain serialiser

  predicate IsMessage(message: seq<seq<byte>>, offsets: seq<nat>, size: nat) {
    && |message| <= |offsets|
    && forall c | 0 <= c < |message| :: |message[c]| == ChannelBytes(c) && offsets[c] + ChannelBytes(c) <= size
  }

  /** The parts of a message, each written at its channel's offset. */
  function Serialise(image: seq<byte>, offsets: seq<nat>, message: seq<seq<byte>>): (r: seq<byte>)
    requires IsMessage(message, offsets, |image|)
    ensures |r| == |image|
  {
    if |message| == 0 then image
    else
      var last := |message| - 1;
      Splice(Serialise(image, offsets, message[..last]), offsets[last], message[last])
  }

  lemma {:induction false} SerialisedPart(image: seq<byte>, offsets: seq<nat>, message: seq<seq<byte>>, c: nat)
    requires IsMessage(message, offsets, |image|) && Disjoint(offsets) && c < |message|
    ensures ChannelAt(Serialise(image, offsets, message), offsets, c) == message[c]
  {
    var last := |message| - 1;
    var before := Serialise(image, offsets, message[..last]);
    if c < last {
      SerialisedPart(image, offsets, message[..last], c);
      assert offsets[c] + ChannelBytes(c) <= offsets[last] || offsets[last] + ChannelBytes(last) <= offsets[c];
      assert ChannelAt(Splice(before, offsets[last], message[last]), offsets, c) == ChannelAt(before, offsets, c);
    }
  }

  lemma {:induction false} SerialiseStaysInside(image: seq<byte>, offsets: seq<nat>, message: seq<seq<byte>>, p: nat)
    requires IsMessage(message, offsets, |image|) && p < |image|
    requires forall c | 0 <= c < |message| :: !InChannel(offsets, c, p)
    ensures Serialise(image, offsets, message)[p] == image[p]
  {
    if |message| > 0 {
      SerialiseStaysInside(image, offsets, message[..|message| - 1], p);
      assert !InChannel(offsets, |message| - 1, p);
    }
  }

  /** The output message: mode, six targets, six durations, zeros. */
  function Message(cfg: Config, targets: seq<int>): (message: seq<seq<byte>>)
    requires |targets| == NUM_FINGER_MOTORS
    ensures |message| == NUM_RX_CHANNELS && forall c | 0 <= c < |message| :: |message[c]| == ChannelBytes(c)
  {
    seq(NUM_RX_CHANNELS, c requires 0 <= c < NUM_RX_CHANNELS => RxPayload(cfg, targets, c))
  }

  // ------------------------------------------------------------------ one cycle

  /** The output channels come first, so all of them see the states the cycle started from. */
  lemma {:induction false} OutputPhase(
    cfg: Config, commands: seq<Double>, s: SlaveState, offsets: seq<nat>, message: seq<seq<byte>>, n: nat)
    requires Mapped(cfg, offsets, s) && n <= NUM_RX_CHANNELS
    requires message == Message(cfg, TargetRaws(cfg, commands, s.states, s.positions))
    ensures IsMessage(message[..n], offsets, |s.image|)
    ensures Cycle(cfg, commands, s, offsets, n) == s.(image := Serialise(s.image, offsets, message[..n]))
  {
    if n > 0 {
      OutputPhase(cfg, commands, s, offsets, message, n - 1);
      assert message[..n][..n - 1] == message[..n - 1];
    }
  }

  lemma {:induction false} InputPhase(cfg: Config, commands: seq<Double>, s: SlaveState, offsets: seq<nat>, n: nat)
    requires Mapped(cfg, offsets, s) && NUM_RX_CHANNELS <= n <= |offsets|
    ensures Cycle(cfg, commands, s, offsets, n).image == Cycle(cfg, commands, s, offsets, NUM_RX_CHANNELS).image
    decreases n
  {
    if n > NUM_RX_CHANNELS {
      InputPhase(cfg, commands, s, offsets, n - 1);
    }
  }

  /** One bus cycle refines the plain serialiser. */
  lemma CycleSerialises(cfg: Config, commands: seq<Double>, s: SlaveState, offsets: seq<nat>, n: nat)
    requires Mapped(cfg, offsets, s) && NUM_RX_CHANNELS <= n <= |offsets|
    ensures var message := Message(cfg, TargetRaws(cfg, commands, s.states, s.positions));
            && IsMessage(message, offsets, |s.image|)
            && Cycle(cfg, commands, s, offsets, n).image == Serialise(s.image, offsets, message)
  {
    var message := Message(cfg, TargetRaws(cfg, commands, s.states, s.positions));
    OutputPhase(cfg, commands, s, offsets, message, NUM_RX_CHANNELS);
    InputPhase(cfg, commands, s, offsets, n);
    assert message[..NUM_RX_CHANNELS] == message;
  }

  lemma MessageImage(image: seq<byte>, offsets: seq<nat>, message: seq<seq<byte>>)
    requires IsMessage(message, offsets, |image|) && Disjoint(offsets) && |message| == NUM_RX_CHANNELS
    requires forall c | 0 <= c < |offsets| :: offsets[c] + ChannelBytes(c) <= |image|
    ensures var r := Serialise(image, offsets, message);
            && (forall c | 0 <= c < NUM_RX_CHANNELS :: ChannelAt(r, offsets, c) == message[c])
            && (forall c | NUM_RX_CHANNELS <= c < |offsets| :: ChannelAt(r, offsets, c) == ChannelAt(image, offsets, c))
            && (forall p | 0 <= p < |r| && (forall c | 0 <= c < NUM_RX_CHANNELS :: !InChannel(offsets, c, p)) ::
                  r[p] == image[p])
  {
    var r := Serialise(image, offsets, message);
    forall c | 0 <= c < NUM_RX_CHANNELS ensures ChannelAt(r, offsets, c) == message[c] {
      SerialisedPart(image, offsets, message, c);
    }
    forall p | 0 <= p < |r| && (forall c | 0 <= c < NUM_RX_CHANNELS :: !InChannel(offsets, c, p))
      ensures r[p] == image[p]
    {
      SerialiseStaysInside(image, offsets, message, p);
    }
    forall c | NUM_RX_CHANNELS <= c < |offsets| ensures ChannelAt(r, offsets, c) == ChannelAt(image, offsets, c) {
      forall p: nat | InChannel(offsets, c, p) ensures r[p] == image[p] {
        forall d | 0 <= d < NUM_RX_CHANNELS ensures !InChannel(offsets, d, p) {
          assert offsets[d] + ChannelBytes(d) <= offsets[c] || offsets[c] + ChannelBytes(c) <= offsets[d];
        }
      }
    }
  }

  /** With disjoint channels every output channel holds its part of the message after the cycle, every
      input channel is as received, and no byte outside the output channels changes. */
  lemma CycleImage(cfg: Config, commands: seq<Double>, s: SlaveState, offsets: seq<nat>, n: nat)
    requires Mapped(cfg, offsets, s) && Disjoint(offsets) && NUM_RX_CHANNELS <= n <= |offsets|
    ensures var image := Cycle(cfg, commands, s, offsets, n).image;
            && (forall c | 0 <= c < NUM_RX_CHANNELS ::
                  ChannelAt(image, offsets, c)
                  == RxPayload(cfg, TargetRaws(cfg, commands, s.states, s.positions), c))
            && (forall c | NUM_RX_CHANNELS <= c < |offsets| ::
                  ChannelAt(image, offsets, c) == ChannelAt(s.image, offsets, c))
            && (forall p | 0 <= p < |image| && (forall c | 0 <= c < NUM_RX_CHANNELS :: !InChannel(offsets, c, p)) ::
                  image[p] == s.image[p])
  {
    CycleSerialises(cfg, commands, s, offsets, n);
    MessageImage(s.image, offsets, Message(cfg, TargetRaws(cfg, commands, s.states, s.positions)));
  }

  // ------------------------------------------------------------------ the states after a cycle

  /** The three decoding channels one after the other. */
  function DecodedAll(cfg: Config, image: seq<byte>, offsets: seq<nat>, states: seq<Double>): (r: seq<Double>)
    requires |offsets| >= 10 && |states| >= 18
    requires forall c | 7 <= c <= 9 :: offsets[c] + 12 <= |image|
    ensures |r| == |states|
  {
    var pos := Decoded(cfg, 7, image, offsets[7], states, NUM_FINGER_MOTORS);
    var vel := Decoded(cfg, 8, image, offsets[8], pos, NUM_FINGER_MOTORS);
    Decoded(cfg, 9, image, offsets[9], vel, NUM_FINGER_MOTORS)
  }

  lemma DecodedAllAt(cfg: Config, image: seq<byte>, offsets: seq<nat>, states: seq<Double>, k: nat, i: nat)
    requires |offsets| >= 10 && |states| >= 18 && k < 3 && i < NUM_FINGER_MOTORS
    requires forall c | 7 <= c <= 9 :: offsets[c] + 12 <= |image|
    ensures DecodedAll(cfg, image, offsets, states)[3 * i + k]
         == Fin(DecodeWord(cfg, 7 + k, WordAt(image, offsets[7 + k] + 2 * i)))
  {
    var p := 3 * i + k;
    assert p / 3 == i && p % 3 == k;
    var pos := Decoded(cfg, 7, image, offsets[7], states, NUM_FINGER_MOTORS);
    var vel := Decoded(cfg, 8, image, offsets[8], pos, NUM_FINGER_MOTORS);
    DecodedAt(cfg, 7, image, offsets[7], states, NUM_FINGER_MOTORS, p);
    DecodedAt(cfg, 8, image, offsets[8], pos, NUM_FINGER_MOTORS, p);
    DecodedAt(cfg, 9, image, offsets[9], vel, NUM_FINGER_MOTORS, p);
  }

  /** An input channel decodes into the states and leaves the image alone. */
  lemma DecodingStep(cfg: Config, commands: seq<Double>, s: SlaveState, offsets: seq<nat>, c: nat)
    requires Mapped(cfg, offsets, s) && 7 <= c <= 9
    ensures var before, after := Cycle(cfg, commands, s, offsets, c), Cycle(cfg, commands, s, offsets, c + 1);
            && after.image == before.image
            && after.states == Decoded(cfg, c, before.image, offsets[c], before.states, NUM_FINGER_MOTORS)
  {
  }

  lemma LaterChannelsKeepStates(cfg: Config, commands: seq<Double>, s: SlaveState, offsets: seq<nat>, n: nat)
    requires Mapped(cfg, offsets, s) && 10 <= n < |offsets|
    ensures Cycle(cfg, commands, s, offsets, n + 1).states == Cycle(cfg, commands, s, offsets, n).states
  {
  }

  lemma OutputsKeepStates(cfg: Config, commands: seq<Double>, s: SlaveState, offsets: seq<nat>)
    requires Mapped(cfg, offsets, s)
    ensures Cycle(cfg, commands, s, offsets, NUM_RX_CHANNELS).states == s.states
  {
    OutputPhase(cfg, commands, s, offsets, Message(cfg, TargetRaws(cfg, commands, s.states, s.positions)),
      NUM_RX_CHANNELS);
  }

  /** The cycle's states come from the image as its output channels left it. */
  lemma {:induction false} CycleStates(cfg: Config, commands: seq<Double>, s: SlaveState, offsets: seq<nat>, n: nat)
    requires Mapped(cfg, offsets, s) && 10 <= n <= |offsets|
    ensures Cycle(cfg, commands, s, offsets, n).states
         == DecodedAll(cfg, Cycle(cfg, commands, s, offsets, NUM_RX_CHANNELS).image, offsets, s.states)
  {
    if n > 10 {
      CycleStates(cfg, commands, s, offsets, n - 1);
      LaterChannelsKeepStates(cfg, commands, s, offsets, n - 1);
    } else {
      OutputsKeepStates(cfg, commands, s, offsets);
      DecodingStep(cfg, commands, s, offsets, 7);
      DecodingStep(cfg, commands, s, offsets, 8);
      DecodingStep(cfg, commands, s, offsets, 9);
    }
  }

  lemma PositionStep(cfg: Config, commands: seq<Double>, s: SlaveState, offsets: seq<nat>, n: nat)
    requires Mapped(cfg, offsets, s) && NUM_RX_CHANNELS <= n < |offsets|
    ensures var before, after := Cycle(cfg, commands, s, offsets, n), Cycle(cfg, commands, s, offsets, n + 1);
            after.positions == if n == 7 then DecodedPositions(cfg, before.image, offsets[7]) else before.positions
  {
  }

  lemma {:induction false} LaterKeepPositions(
    cfg: Config, commands: seq<Double>, s: SlaveState, offsets: seq<nat>, n: nat)
    requires Mapped(cfg, offsets, s) && 8 <= n <= |offsets|
    ensures Cycle(cfg, commands, s, offsets, n).positions == Cycle(cfg, commands, s, offsets, 8).positions
  {
    if n > 8 {
      PositionStep(cfg, commands, s, offsets, n - 1);
      LaterKeepPositions(cfg, commands, s, offsets, n - 1);
    }
  }

  /** The last decoded positions come from the image as the output channels left it. */
  lemma CyclePositions(cfg: Config, commands: seq<Double>, s: SlaveState, offsets: seq<nat>)
    requires Mapped(cfg, offsets, s)
    ensures Cycle(cfg, commands, s, offsets, |offsets|).positions
         == DecodedPositions(cfg, Cycle(cfg, commands, s, offsets, NUM_RX_CHANNELS).image, offsets[7])
  {
    PositionStep(cfg, commands, s, offsets, 7);
    LaterKeepPositions(cfg, commands, s, offsets, |offsets|);
  }

  lemma DecodingsAgree(cfg: Config, image: seq<byte>, offsets: seq<nat>, states: seq<Double>, i: nat)
    requires |offsets| >= 10 && |states| >= 18 && i < NUM_FINGER_MOTORS
    requires forall c | 7 <= c <= 9 :: offsets[c] + 12 <= |image|
    ensures DecodedAll(cfg, image, offsets, states)[3 * i] == Fin(DecodedPositions(cfg, image, offsets[7])[i])
  {
    DecodedAllAt(cfg, image, offsets, states, 0, i);
  }

  /** The slave's own copy of the positions agrees with the position states. */
  lemma PositionsAgree(cfg: Config, commands: seq<Double>, s: SlaveState, offsets: seq<nat>, i: nat)
    requires Mapped(cfg, offsets, s) && i < NUM_FINGER_MOTORS
    ensures var after := Cycle(cfg, commands, s, offsets, |offsets|); after.states[3 * i] == Fin(after.positions[i])
  {
    CyclePositions(cfg, commands, s, offsets);
    CycleStates(cfg, commands, s, offsets, |offsets|);
    DecodingsAgree(cfg, Cycle(cfg, commands, s, offsets, NUM_RX_CHANNELS).image, offsets, s.states, i);
  }

  lemma SameChannelSameWord(a: seq<byte>, b: seq<byte>, offsets: seq<nat>, c: nat, i: nat)
    requires c < |offsets| && 7 <= c <= 9 && i < NUM_FINGER_MOTORS
    requires offsets[c] + 12 <= |a| && |a| == |b| && ChannelAt(a, offsets, c) == ChannelAt(b, offsets, c)
    ensures WordAt(a, offsets[c] + 2 * i) == WordAt(b, offsets[c] + 2 * i)
  {
    WordInSlice(a, offsets[c], offsets[c] + 12, 2 * i);
    WordInSlice(b, offsets[c], offsets[c] + 12, 2 * i);
  }

  lemma OutputsKeepInputs(cfg: Config, commands: seq<Double>, s: SlaveState, offsets: seq<nat>, c: nat)
    requires Mapped(cfg, offsets, s) && Disjoint(offsets) && 7 <= c <= 9
    ensures var image := Cycle(cfg, commands, s, offsets, NUM_RX_CHANNELS).image;
            ChannelAt(image, offsets, c) == ChannelAt(s.image, offsets, c)
  {
    CycleImage(cfg, commands, s, offsets, NUM_RX_CHANNELS);
  }

  lemma DecodesReceived(
    cfg: Config, image: seq<byte>, received: seq<byte>, offsets: seq<nat>, states: seq<Double>, k: nat, i: nat)
    requires |offsets| >= 10 && |states| >= 18 && k < 3 && i < NUM_FINGER_MOTORS && |image| == |received|
    requires forall c | 7 <= c <= 9 :: offsets[c] + 12 <= |image|
    requires ChannelAt(image, offsets, 7 + k) == ChannelAt(received, offsets, 7 + k)
    ensures DecodedAll(cfg, image, offsets, states)[3 * i + k]
         == Fin(DecodeWord(cfg, 7 + k, WordAt(received, offsets[7 + k] + 2 * i)))
  {
    DecodedAllAt(cfg, image, offsets, states, k, i);
    SameChannelSameWord(image, received, offsets, 7 + k, i);
  }

  /** Input channel 7 + k decodes the bytes the cycle received into state k of every finger. */
  lemma InputChannel(cfg: Config, commands: seq<Double>, s: SlaveState, offsets: seq<nat>, k: nat, i: nat)
    requires Mapped(cfg, offsets, s) && Disjoint(offsets) && k < 3 && i < NUM_FINGER_MOTORS
    ensures Cycle(cfg, commands, s, offsets, |offsets|).states[3 * i + k]
         == Fin(DecodeWord(cfg, 7 + k, WordAt(s.image, offsets[7 + k] + 2 * i)))
  {
    CycleStates(cfg, commands, s, offsets, |offsets|);
    OutputsKeepInputs(cfg, commands, s, offsets, 7 + k);
    DecodesReceived(cfg, Cycle(cfg, commands, s, offsets, NUM_RX_CHANNELS).image, s.image, offsets, s.states, k, i);
  }

  function ReceivedPosition(image: seq<byte>, offsets: seq<nat>, i: nat): nat
    requires 7 < |offsets| && offsets[7] + 12 <= |image| && i < NUM_FINGER_MOTORS
  {
    WordAt(ChannelAt(image, offsets, 7), 2 * i)
  }

  /** After a whole cycle the position state of finger i is the decoded word of input channel 7. */
  lemma DecodedPosition(cfg: Config, commands: seq<Double>, s: SlaveState, offsets: seq<nat>, i: nat)
    requires Mapped(cfg, offsets, s) && Disjoint(offsets) && i < NUM_FINGER_MOTORS
    ensures Cycle(cfg, commands, s, offsets, |offsets|).states[3 * i]
         == Fin(DecodePosition(ReceivedPosition(s.image, offsets, i), cfg.physical))
  {
    InputChannel(cfg, commands, s, offsets, 0, i);
    WordInSlice(s.image, offsets[7], offsets[7] + 12, 2 * i);
  }

  /** The word of finger i in output channel 1 and in input channel 7. */
  function SentPosition(image: seq<byte>, offsets: seq<nat>, i: nat): nat
    requires 1 < |offsets| && offsets[1] + 12 <= |image| && i < NUM_FINGER_MOTORS
  {
    WordAt(ChannelAt(image, offsets, 1), 2 * i)
  }

  /** The raw target of finger i, as the hand will find it in output channel 1 after the cycle. */
  lemma SentTarget(cfg: Config, commands: seq<Double>, s: SlaveState, offsets: seq<nat>, i: nat)
    requires Mapped(cfg, offsets, s) && Disjoint(offsets) && i < NUM_FINGER_MOTORS
    ensures SentPosition(Cycle(cfg, commands, s, offsets, |offsets|).image, offsets, i)
         == TargetRaw(cfg, commands, s.states, s.positions, i) % 0x1_0000
  {
    CycleImage(cfg, commands, s, offsets, |offsets|);
    WordsAt(TargetRaws(cfg, commands, s.states, s.positions), i);
  }

  lemma SettingsPayload(cfg: Config, targets: seq<int>, i: nat)
    requires |targets| == NUM_FINGER_MOTORS && i < NUM_FINGER_MOTORS
    ensures WordAt(RxPayload(cfg, targets, 0), 0) == 1
    ensures WordAt(RxPayload(cfg, targets, 2), 2 * i) == cfg.durationMs % 0x1_0000
  {
    WordsAt([1], 0);
    WordsAt(seq(NUM_FINGER_MOTORS, _ => cfg.durationMs), i);
  }

  lemma ZeroPayload(cfg: Config, targets: seq<int>, c: nat, p: nat)
    requires |targets| == NUM_FINGER_MOTORS && 3 <= c <= 6 && p < ChannelBytes(c)
    ensures RxPayload(cfg, targets, c)[p] == 0
  {
    OneWord(0);
  }

  /** Channel 0 says multi-finger mode and channel 2 the configured duration for every finger. */
  lemma SentSettings(cfg: Config, commands: seq<Double>, s: SlaveState, offsets: seq<nat>, i: nat)
    requires Mapped(cfg, offsets, s) && Disjoint(offsets) && i < NUM_FINGER_MOTORS
    ensures var image := Cycle(cfg, commands, s, offsets, |offsets|).image;
            && WordAt(ChannelAt(image, offsets, 0), 0) == 1
            && WordAt(ChannelAt(image, offsets, 2), 2 * i) == cfg.durationMs % 0x1_0000
  {
    CycleImage(cfg, commands, s, offsets, |offsets|);
    SettingsPayload(cfg, TargetRaws(cfg, commands, s.states, s.positions), i);
  }

  /** The single-finger part of the message, channels 3 to 6, is zero. */
  lemma SentZeros(cfg: Config, commands: seq<Double>, s: SlaveState, offsets: seq<nat>, c: nat, p: nat)
    requires Mapped(cfg, offsets, s) && Disjoint(offsets) && 3 <= c <= 6 && p < ChannelBytes(c)
    ensures ChannelAt(Cycle(cfg, commands, s, offsets, |offsets|).image, offsets, c)[p] == 0
  {
    CycleImage(cfg, commands, s, offsets, |offsets|);
    ZeroPayload(cfg, TargetRaws(cfg, commands, s.states, s.positions), c, p);
  }

  predicate Asked(commands: seq<Double>, states: seq<Double>, i: nat, x: real)
    requires i < |commands| && 3 * i < |states|
  {
    commands[i] == Fin(x) || (commands[i].NonFinite? && states[3 * i] == Fin(x))
  }

  /** A word says a finger's command, or for a non-finite one its position state, to the device's nearest unit;
      without a command interface it is 0. */
  predicate Says(word: nat, cfg: Config, commands: seq<Double>, states: seq<Double>, i: nat, x: real)
    requires 3 * i < |states|
  {
    if i >= |commands| then word == 0 else Asked(commands, states, i, x) ==> Nearest(word, x, cfg.physical)
  }

  lemma TargetSays(
    cfg: Config, commands: seq<Double>, states: seq<Double>, decoded: seq<real>, i: nat, x: real, word: nat)
    requires 3 * i < |states| && i < |decoded| && word == TargetRaw(cfg, commands, states, decoded, i) % 0x1_0000
    ensures Says(word, cfg, commands, states, i, x)
  {
    if i < |commands| && Asked(commands, states, i, x) {
      assert TargetRaw(cfg, commands, states, decoded, i) == EncodePosition(x, cfg.physical);
      EncodesNearest(x, cfg.physical);
    }
  }

  lemma SentNearest(cfg: Config, commands: seq<Double>, s: SlaveState, offsets: seq<nat>, i: nat, x: real)
    requires Mapped(cfg, offsets, s) && Disjoint(offsets) && i < NUM_FINGER_MOTORS
    ensures var image := Cycle(cfg, commands, s, offsets, |offsets|).image;
            Says(SentPosition(image, offsets, i), cfg, commands, s.states, i, x)
  {
    SentTarget(cfg, commands, s, offsets, i);
    TargetSays(cfg, commands, s.states, s.positions, i, x,
      SentPosition(Cycle(cfg, commands, s, offsets, |offsets|).image, offsets, i));
  }

  /** From the second cycle on a non-finite command holds the position decoded in the cycle before. */
  lemma NonFiniteHoldsPosition(
    cfg: Config, commands: seq<Double>, s: SlaveState, later: seq<Double>, image: seq<byte>, offsets: seq<nat>, i: nat)
    requires Mapped(cfg, offsets, s) && Disjoint(offsets) && |image| == |s.image|
    requires i < NUM_FINGER_MOTORS && i < |later| && later[i].NonFinite?
    ensures var first := Cycle(cfg, commands, s, offsets, |offsets|);
            var second := Cycle(cfg, later, first.(image := image), offsets, |offsets|);
            SentPosition(second.image, offsets, i)
            == EncodePosition(DecodePosition(ReceivedPosition(s.image, offsets, i), cfg.physical), cfg.physical)
               % 0x1_0000
  {
    var first := Cycle(cfg, commands, s, offsets, |offsets|);
    DecodedPosition(cfg, commands, s, offsets, i);
    SentTarget(cfg, later, first.(image := image), offsets, i);
  }
}

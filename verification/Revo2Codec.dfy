/** What the Revo2 slave puts into its output channels and reads from its input channels, for the
    multi-finger mode the constructor fixes. */
module Revo2Codec {
  import opened Numbers
  import opened Bytes

  const NUM_FINGER_MOTORS := 6
  const MULTI_MODE_POSITION_TIME := 1

  /** setupSlave's findings and parameters.  undefinedRaw stands for whatever the platform makes of
      converting a non-finite double to int16. */
  datatype Config = Config(physical: bool, touch: bool, durationMs: nat, undefinedRaw: int)

  // ------------------------------------------------------------------ units

  /** 0.1 degree, the device's unit, to radians and back. */
  function DegToRad(deg: real): real {
    deg * 0.1 * PI / 180.0
  }

  function RadToDeg(rad: real): real {
    rad * 180.0 / PI * 10.0
  }

  function Revo2ToRadian(pos: int): real {
    0.001 + (pos - 1) as real * (1.57 - 0.001) / 999.0
  }

  function RadianToRevo2(rad: real): int {
    LRound(Clamp(1.0 + (rad - 0.001) * 999.0 / (1.57 - 0.001), 1.0, 1000.0))
  }

  /** static_cast<int16_t> of a wider integer. */
  function ToInt16(n: int): int {
    (n + 0x8000) % 0x1_0000 - 0x8000
  }

  function DecodePosition(raw: nat, physical: bool): real {
    if physical then DegToRad(raw as real) else Revo2ToRadian(ToInt16(raw))
  }

  function DecodeVelocity(raw: nat, physical: bool): real {
    if physical then DegToRad(ToInt16(raw) as real) else Revo2ToRadian(ToInt16(raw))
  }

  function DecodeEffort(raw: nat, physical: bool): real {
    if physical then ToInt16(raw) as real * 60.0 / 700.0 * 0.001
    else (ToInt16(raw) as real * 700.0 / 1000.0) * 60.0 / 700.0 * 0.001
  }

  function EncodePosition(rad: real, physical: bool): int {
    if physical then ToInt16(LRound(RadToDeg(rad))) else RadianToRevo2(rad)
  }

  lemma PhysicalRoundTrip(raw: nat)
    ensures RadToDeg(DegToRad(raw as real)) == raw as real
  {
  }

  lemma PerMilleRoundTrip(p: int)
    ensures RadianToRevo2(Revo2ToRadian(p)) == ClampInt(p, 1, 1000)
  {
    assert 1.0 + (Revo2ToRadian(p) - 0.001) * 999.0 / (1.57 - 0.001) == p as real;
  }

  /** Encoding a decoded position gives the raw word back exactly when the device counts physically or
      the word is in the per-mille range; outside that range it is pulled to the nearer end. */
  lemma EncodeDecoded(raw: nat, physical: bool)
    requires raw < 0x1_0000
    ensures var again := EncodePosition(DecodePosition(raw, physical), physical);
            && (physical ==> again == ToInt16(raw))
            && (!physical ==> again == ClampInt(ToInt16(raw), 1, 1000))
            && (again % 0x1_0000 == raw <==> physical || 1 <= raw <= 1000)
  {
    if physical {
      PhysicalRoundTrip(raw);
    } else {
      PerMilleRoundTrip(ToInt16(raw));
    }
  }

  /** The physical units of a received word, as a two's complement number v: tenths of a degree, or per mille of
      the way from 0.001 to 1.57 rad; currents count 60 mNm for 700 mA, which is 1000 per mille. */
  lemma DecodedUnits(raw: nat, physical: bool)
    requires raw < 0x1_0000
    ensures var v := (if raw < 0x8000 then raw else raw - 0x1_0000) as real;
            && (physical ==> DecodePosition(raw, true) * 1800.0 == raw as real * PI)
            && (physical ==> DecodeVelocity(raw, true) * 1800.0 == v * PI)
            && (physical ==> DecodeEffort(raw, true) * 700.0 == v * 0.06)
            && (!physical ==> (DecodePosition(raw, false) - 0.001) * 999.0 == (v - 1.0) * 1.569)
            && (!physical ==> (DecodeVelocity(raw, false) - 0.001) * 999.0 == (v - 1.0) * 1.569)
            && (!physical ==> DecodeEffort(raw, false) * 1000.0 == v * 0.06)
  {
  }

  lemma LRoundNearest(x: real)
    ensures Abs(LRound(x) as real - x) <= 0.5
  {
  }

  predicate InPhysicalRange(x: real) {
    0.0 <= x <= 3276.7 * PI / 180.0
  }

  lemma PhysicalError(x: real)
    requires InPhysicalRange(x)
    ensures var n := EncodePosition(x, true); 0 <= n <= 0x7FFF && Abs(DecodePosition(n, true) - x) <= PI / 3600.0
  {
    LRoundNearest(RadToDeg(x));
  }

  lemma PerMilleError(x: real)
    ensures var n := EncodePosition(x, false);
            && 1 <= n <= 1000
            && (0.001 <= x <= 1.57 ==> Abs(DecodePosition(n, false) - x) <= 1.569 / 1998.0)
            && (x <= 0.001 ==> n == 1)
            && (x >= 1.57 ==> n == 1000)
  {
    LRoundNearest(Clamp(1.0 + (x - 0.001) * 999.0 / (1.57 - 0.001), 1.0, 1000.0));
  }

  /** A word says a position to the device's nearest unit; per-mille words for positions beyond the range are
      those of its ends. */
  predicate Nearest(word: nat, x: real, physical: bool) {
    if physical then InPhysicalRange(x) ==> Abs(DecodePosition(word, true) - x) <= PI / 3600.0
    else
      && (0.001 <= x <= 1.57 ==> Abs(DecodePosition(word, false) - x) <= 1.569 / 1998.0)
      && (x <= 0.001 ==> word == 1)
      && (x >= 1.57 ==> word == 1000)
  }

  lemma EncodesNearest(x: real, physical: bool)
    ensures Nearest(EncodePosition(x, physical) % 0x1_0000, x, physical)
  {
    if !physical {
      PerMilleError(x);
    } else if InPhysicalRange(x) {
      PhysicalError(x);
    }
  }

  // ------------------------------------------------------------------ output channels

  /** The raw target of one finger: its command, or failing that its state, or failing that the last
      decoded position; zero without a command interface. */
  function TargetRaw(cfg: Config, commands: seq<Double>, states: seq<Double>, decoded: seq<real>, i: nat): int
    requires i < |decoded|
  {
    if i >= |commands| then 0
    else if commands[i].Fin? then EncodePosition(commands[i].r, cfg.physical)
    else if 3 * i >= |states| then EncodePosition(decoded[i], cfg.physical)
    else if states[3 * i].Fin? then EncodePosition(states[3 * i].r, cfg.physical)
    else cfg.undefinedRaw
  }

  function TargetRaws(cfg: Config, commands: seq<Double>, states: seq<Double>, decoded: seq<real>): (raws: seq<int>)
    requires |decoded| == NUM_FINGER_MOTORS
    ensures |raws| == NUM_FINGER_MOTORS
  {
    seq(NUM_FINGER_MOTORS, i requires 0 <= i < NUM_FINGER_MOTORS => TargetRaw(cfg, commands, states, decoded, i))
  }

  /** A PDO entry: index, sub-index and length in bits. */
  datatype PdoEntry = PdoEntry(index: nat, subindex: nat, bits: nat)

  function RxChannels(): seq<PdoEntry> {
    [PdoEntry(0x7000, 1, 16), PdoEntry(0x7000, 2, 96), PdoEntry(0x7000, 3, 96), PdoEntry(0x7010, 1, 8),
     PdoEntry(0x7010, 2, 8), PdoEntry(0x7010, 3, 16), PdoEntry(0x7010, 4, 16)]
  }

  function TxChannels(touch: bool): seq<PdoEntry> {
    [PdoEntry(0x6000, 1, 96), PdoEntry(0x6000, 2, 96), PdoEntry(0x6000, 3, 96), PdoEntry(0x6000, 4, 96)]
    + if touch then
        [PdoEntry(0x6010, 1, 80), PdoEntry(0x6010, 2, 80), PdoEntry(0x6010, 3, 80), PdoEntry(0x6010, 4, 160),
         PdoEntry(0x6010, 5, 80)]
      else []
  }

  /** setupChannels. */
  function Channels(touch: bool): seq<PdoEntry> {
    RxChannels() + TxChannels(touch)
  }

  function NumChannels(touch: bool): nat {
    if touch then 16 else 11
  }

  /** Bytes of channel c. */
  function ChannelBytes(c: nat): nat {
    if c == 3 || c == 4 then 1
    else if c == 0 || c == 5 || c == 6 then 2
    else if c <= 10 then 12
    else if c == 14 then 20
    else 10
  }

  /** Declared lengths are whole bytes. */
  lemma ChannelsAreBytes(touch: bool)
    ensures |Channels(touch)| == NumChannels(touch)
    ensures forall c | 0 <= c < NumChannels(touch) :: Channels(touch)[c].bits == 8 * ChannelBytes(c)
  {
  }

  const NUM_RX_CHANNELS := 7

  /** How many channels before c have the same object index. */
  function Earlier(touch: bool, c: nat, n: nat): nat
    requires c < |Channels(touch)| && n <= |Channels(touch)|
  {
    if n == 0 then 0
    else Earlier(touch, c, n - 1) + if Channels(touch)[n - 1].index == Channels(touch)[c].index then 1 else 0
  }

  lemma {:induction false} EarlierIs(touch: bool, c: nat, n: nat)
    requires c < |Channels(touch)| && n <= c
    ensures var first := if c < 3 then 0 else if c < 7 then 3 else if c < 11 then 7 else 11;
            Earlier(touch, c, n) == if n <= first then 0 else n - first
  {
    if n > 0 {
      EarlierIs(touch, c, n - 1);
    }
  }

  /** The entries of an object count from 1 in channel order; outputs are objects 0x7000 and 0x7010, inputs
      0x6000 and, with touch sensors, 0x6010. */
  lemma {:induction false} ChannelObjects(touch: bool, c: nat)
    requires c < |Channels(touch)|
    ensures Channels(touch)[c].index
            == if c < 3 then 0x7000 else if c < 7 then 0x7010 else if c < 11 then 0x6000 else 0x6010
    ensures Channels(touch)[c].subindex == 1 + Earlier(touch, c, c)
  {
    EarlierIs(touch, c, c);
  }

  datatype Direction = Output | Input | Invalid

  /** ec_pdo_info_t: an object index and so many entries from channel first on. */
  datatype Pdo = Pdo(index: nat, entries: nat, first: nat)

  datatype SyncManager = SyncManager(index: nat, direction: Direction, pdos: seq<Pdo>, watchdog: bool)

  /** setupSyncManagers: both mailboxes, the outputs, the inputs, and the end mark. */
  function SyncManagers(touch: bool): seq<SyncManager> {
    [SyncManager(0, Output, [], false),
     SyncManager(1, Input, [], false),
     SyncManager(2, Output, [Pdo(0x1600, 7, 0)], true),
     SyncManager(3, Input, [Pdo(0x1A00, if touch then 9 else 4, 7)], false),
     SyncManager(0xFF, Invalid, [], false)]
  }

  predicate Carries(sm: SyncManager, c: nat) {
    exists pdo | pdo in sm.pdos :: pdo.first <= c < pdo.first + pdo.entries
  }

  /** Of the sync managers exactly one carries each channel, the output one for channels 0 to 6 and the
      input one for all others; none points past the channels; and the end mark is the last and only one. */
  lemma SyncManagersCoverChannels(touch: bool, c: nat, i: nat)
    requires i < |SyncManagers(touch)|
    ensures var sm := SyncManagers(touch)[i];
            && (Carries(sm, c) <==> c < |Channels(touch)| && i == if c < NUM_RX_CHANNELS then 2 else 3)
            && (Carries(sm, c) ==> sm.direction == if c < NUM_RX_CHANNELS then Output else Input)
            && (sm.index == (if i == 4 then 0xFF else i))
            && (sm.watchdog <==> i == 2)
            && (forall pdo | pdo in sm.pdos :: pdo.index == if sm.direction.Output? then 0x1600 else 0x1A00)
            && (sm.direction.Invalid? <==> i == |SyncManagers(touch)| - 1)
  {
    var sms := SyncManagers(touch);
    ChannelsAreBytes(touch);
    var outputs, inputs := Pdo(0x1600, 7, 0), Pdo(0x1A00, if touch then 9 else 4, 7);
    assert sms[2].pdos == [outputs] && sms[3].pdos == [inputs];
    assert i == 2 ==> outputs in sms[i].pdos;
    assert i == 3 ==> inputs in sms[i].pdos;
  }

  /** The output channels: mode, six targets, six durations, and zeros for the single-finger part. */
  function RxPayload(cfg: Config, targets: seq<int>, c: nat): (payload: seq<byte>)
    requires |targets| == NUM_FINGER_MOTORS && c < NUM_RX_CHANNELS
    ensures |payload| == ChannelBytes(c)
  {
    match c
    case 0 => Words([MULTI_MODE_POSITION_TIME])
    case 1 => Words(targets)
    case 2 => Words(seq(NUM_FINGER_MOTORS, _ => cfg.durationMs))
    case 3 => [0]
    case 4 => [0]
    case 5 => Words([0])
    case 6 => Words([0])
  }

  // ------------------------------------------------------------------ input channels

  /** Which of a joint's three states channels 7, 8 and 9 carry. */
  function DecodeWord(cfg: Config, c: nat, raw: nat): real
    requires 7 <= c <= 9
  {
    if c == 7 then DecodePosition(raw, cfg.physical)
    else if c == 8 then DecodeVelocity(raw, cfg.physical)
    else DecodeEffort(raw, cfg.physical)
  }

  /** The states after decoding the first n of the six words of channel c. */
  function Decoded(cfg: Config, c: nat, image: seq<byte>, at: nat, states: seq<Double>, n: nat): (r: seq<Double>)
    requires 7 <= c <= 9 && n <= NUM_FINGER_MOTORS && at + 12 <= |image| && |states| >= 18
    ensures |r| == |states|
  {
    if n == 0 then states
    else
      Decoded(cfg, c, image, at, states, n - 1)[
        3 * (n - 1) + (c - 7) := Fin(DecodeWord(cfg, c, WordAt(image, at + 2 * (n - 1))))]
  }

  /** Finger i's word lands at 3 * i + (c - 7), and nothing else changes. */
  lemma {:induction false} DecodedAt(
    cfg: Config, c: nat, image: seq<byte>, at: nat, states: seq<Double>, n: nat, p: nat)
    requires 7 <= c <= 9 && n <= NUM_FINGER_MOTORS && at + 12 <= |image| && |states| >= 18 && p < |states|
    ensures Decoded(cfg, c, image, at, states, n)[p] ==
            if p < 3 * n && p % 3 == c - 7 then Fin(DecodeWord(cfg, c, WordAt(image, at + 2 * (p / 3)))) else states[p]
  {
    if n > 0 {
      DecodedAt(cfg, c, image, at, states, n - 1, p);
    }
  }
}

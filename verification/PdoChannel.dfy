/** The generic PDO channel: scaled integers and masked bits in the process image. */
module PdoChannel {
  import opened Numbers
  import opened Bytes

  /** uint8 to int64, bool, and the bitN types. */
  datatype DataType = Unsigned(bytes: nat) | Signed(bytes: nat) | BoolType | Bits

  datatype Config = Config(
    rpdo: bool, dataType: DataType, mask: bv8, factor: real, offset: real,
    interfaceIndex: int, default: Double, allowWrite: bool, overrideCommand: bool)

  predicate IsInteger(t: DataType) {
    t.Unsigned? || t.Signed?
  }

  predicate WellTyped(t: DataType) {
    IsInteger(t) ==> t.bytes == 1 || t.bytes == 2 || t.bytes == 4 || t.bytes == 8
  }

  function Width(t: DataType): nat {
    if IsInteger(t) then t.bytes else 1
  }

  // ------------------------------------------------------------------ bits of one byte

  function PopCount(x: bv8): nat {
    if x == 0 then 0 else (if x & 1 == 1 then 1 else 0) + PopCount(x >> 1)
  }

  predicate OneBit(m: bv8) {
    m == 1 || m == 2 || m == 4 || m == 8 || m == 16 || m == 32 || m == 64 || m == 128
  }

  lemma OneBitShifted(m: bv8)
    requires m != 0
    ensures m & 1 == 0 ==> (OneBit(m) <==> OneBit(m >> 1))
    ensures m & 1 == 1 ==> (OneBit(m) <==> m >> 1 == 0)
    ensures m >> 1 < m
  {
  }

  lemma {:induction false} PopCountZero(m: bv8)
    ensures PopCount(m) == 0 <==> m == 0
    decreases m
  {
    if m != 0 {
      OneBitShifted(m);
      PopCountZero(m >> 1);
    }
  }

  lemma {:induction false} PopCountOne(m: bv8)
    ensures PopCount(m) == 1 <==> OneBit(m)
    decreases m
  {
    if m != 0 {
      OneBitShifted(m);
      PopCountZero(m >> 1);
      PopCountOne(m >> 1);
    }
  }

  /** popcount. */
  method CountBits(mask: bv8) returns (count: nat)
    ensures count == PopCount(mask)
  {
    count := 0;
    var x := mask;
    while x != 0
      invariant count + PopCount(x) == PopCount(mask)
      decreases x
    {
      if x & 1 == 1 {
        count := count + 1;
      }
      x := x >> 1;
    }
  }

  function Narrow(value: real): bv8
    requires 0 <= Trunc(value) < 256
  {
    Trunc(value) as bv8
  }

  /** The byte a bool or bitN channel with a mask of count bits leaves behind. */
  function Masked(b: bv8, mask: bv8, count: nat, value: real): bv8
    requires count == 1 || mask == 0 || 0 <= Trunc(value) < 256
  {
    if count == 1 then (if value != 0.0 then (b & !mask) | mask else b & !mask)
    else if mask != 0 then 0 | (Narrow(value) & mask)
    else b
  }

  /** The C++ conversions are defined: the truncated value fits the target type. */
  predicate Convertible(t: DataType, mask: bv8, value: real) {
    match t
    case Unsigned(n) => FitsUnsigned(Trunc(value), n)
    case Signed(n) => FitsSigned(Trunc(value), n)
    case _ => PopCount(mask) == 1 || mask == 0 || 0 <= Trunc(value) < 256
  }

  function WriteBits(b: bv8, mask: bv8, value: real): bv8
    requires Convertible(Bits, mask, value)
  {
    Masked(b, mask, PopCount(mask), value)
  }

  /** One channel's update of a shared byte. */
  datatype BitUpdate = BitUpdate(mask: bv8, value: real)

  predicate Exclusive(us: seq<BitUpdate>) {
    && (forall i | 0 <= i < |us| :: OneBit(us[i].mask))
    && (forall i, j | 0 <= i < j < |us| :: us[i].mask != us[j].mask)
  }

  function UpdateAll(b: bv8, us: seq<BitUpdate>): bv8
    requires forall i | 0 <= i < |us| :: OneBit(us[i].mask)
  {
    if |us| == 0 then b
    else
      var last := us[|us| - 1];
      PopCountOne(last.mask);
      WriteBits(UpdateAll(b, us[..|us| - 1]), last.mask, last.value)
  }

  lemma WriteOneBit(b: bv8, mask: bv8, other: bv8, value: real)
    requires OneBit(mask) && OneBit(other)
    ensures PopCount(mask) == 1
    ensures (WriteBits(b, mask, value) & other != 0) <==> if other == mask then value != 0.0 else b & other != 0
  {
    PopCountOne(mask);
  }

  /** After any sequence of updates with distinct one-bit masks, each bit reads the truth value of its
      own channel, and a bit without a channel is as it was. */
  lemma {:induction false} UpdatesIndependent(b: bv8, us: seq<BitUpdate>, bit: bv8)
    requires Exclusive(us) && OneBit(bit)
    ensures forall i | 0 <= i < |us| && us[i].mask == bit :: UpdateAll(b, us) & bit != 0 <==> us[i].value != 0.0
    ensures (forall i | 0 <= i < |us| :: us[i].mask != bit) ==> (UpdateAll(b, us) & bit != 0 <==> b & bit != 0)
  {
    if |us| > 0 {
      var n := |us| - 1;
      UpdatesIndependent(b, us[..n], bit);
      WriteOneBit(UpdateAll(b, us[..n]), us[n].mask, bit, us[n].value);
      forall i | 0 <= i < |us| && us[i].mask == bit ensures UpdateAll(b, us) & bit != 0 <==> us[i].value != 0.0 {
        if i < n { assert us[..n][i].mask == bit; }
      }
      if forall i | 0 <= i < |us| :: us[i].mask != bit {
        assert forall i | 0 <= i < n :: us[..n][i].mask != bit;
      }
    }
  }

  lemma BytesByBits(x: bv8, y: bv8)
    requires forall bit: bv8 | OneBit(bit) :: (x & bit != 0) <==> (y & bit != 0)
    ensures x == y
  {
    assert OneBit(1) && OneBit(2) && OneBit(4) && OneBit(8);
    assert OneBit(16) && OneBit(32) && OneBit(64) && OneBit(128);
  }

  /** The order of the updates is irrelevant. */
  lemma UpdateOrderIrrelevant(b: bv8, us: seq<BitUpdate>, vs: seq<BitUpdate>)
    requires Exclusive(us) && Exclusive(vs)
    requires forall u :: u in us <==> u in vs
    ensures UpdateAll(b, us) == UpdateAll(b, vs)
  {
    forall bit: bv8 | OneBit(bit) ensures (UpdateAll(b, us) & bit != 0) <==> (UpdateAll(b, vs) & bit != 0) {
      UpdatesIndependent(b, us, bit);
      UpdatesIndependent(b, vs, bit);
      if i :| 0 <= i < |us| && us[i].mask == bit {
        assert us[i] in vs;
        var j :| 0 <= j < |vs| && vs[j] == us[i];
      } else {
        forall j | 0 <= j < |vs| ensures vs[j].mask != bit {
          assert vs[j] in us;
        }
      }
    }
    BytesByBits(UpdateAll(b, us), UpdateAll(b, vs));
  }

  /** A write leaves the bits outside its mask alone, whatever byte it finds, exactly if the mask has at
      most one bit or all eight: a wider mask rewrites the whole byte. */
  lemma OutsideMaskPreservedIff(mask: bv8)
    ensures (forall b: bv8, value: real | Convertible(Bits, mask, value) ::
               WriteBits(b, mask, value) & !mask == b & !mask)
            <==> OneBit(mask) || mask == 0 || mask == 0xFF
  {
    PopCountOne(mask);
    if !OneBit(mask) && mask != 0 && mask != 0xFF {
      var b: bv8 := 0xFF;
      assert Convertible(Bits, mask, 0.0);
      assert WriteBits(b, mask, 0.0) & !mask == 0 != b & !mask;
    }
  }

  // ------------------------------------------------------------------ the image

  /** A byte of the image as the bits it stands for, and back. */
  function ToBits(b: byte): bv8 {
    b as bv8
  }

  function OfBits(bits: bv8): byte {
    bits as byte
  }

  /** The bytes ec_write stores at the channel's place. */
  function Stored(cfg: Config, found: seq<byte>, value: real): (r: seq<byte>)
    requires WellTyped(cfg.dataType) && |found| == Width(cfg.dataType)
    requires Convertible(cfg.dataType, cfg.mask, value)
    ensures |r| == |found|
  {
    match cfg.dataType
    case Unsigned(n) => LeBytes(Trunc(value), n)
    case Signed(n) => LeBytes(ToUnsigned(Trunc(value), n), n)
    case _ => [OfBits(WriteBits(ToBits(found[0]), cfg.mask, value))]
  }

  /** The raw number ec_read finds there. */
  function RawAt(cfg: Config, bytes: seq<byte>): int
    requires |bytes| == Width(cfg.dataType)
  {
    match cfg.dataType
    case Unsigned(n) => LeValue(bytes)
    case Signed(n) => ToSigned(LeValue(bytes), n)
    case BoolType => if ToBits(bytes[0]) & cfg.mask != 0 then 1 else 0
    case Bits => OfBits(ToBits(bytes[0]) & cfg.mask)
  }

  lemma OfBitsToBits(x: bv8)
    ensures ToBits(OfBits(x)) == x
  {
  }

  lemma OneBitMerged(b: bv8, mask: bv8)
    ensures OneBit(mask) ==> ((b & !mask) | mask) & mask != 0
    ensures b & !mask & mask == 0 && b & !mask & !mask == b & !mask && ((b & !mask) | mask) & !mask == b & !mask
  {
  }

  /** A one-bit mask gets the truth value and leaves the other bits alone; a wider one leaves the truncated value's bits
      under it; an empty one leaves everything. */
  predicate Merged(before: bv8, mask: bv8, value: real, after: bv8) {
    && (OneBit(mask) ==> (after & mask != 0 <==> value != 0.0) && after & !mask == before & !mask)
    && (!OneBit(mask) && mask != 0 ==> 0 <= Trunc(value) < 256 && after == Narrow(value) & mask)
    && (mask == 0 ==> after == before)
  }

  lemma WrittenBits(b: bv8, mask: bv8, value: real)
    requires Convertible(Bits, mask, value)
    ensures Merged(b, mask, value, WriteBits(b, mask, value))
  {
    PopCountOne(mask);
    OneBitMerged(b, mask);
  }

  /** What a bool or bitN channel stores. */
  lemma StoredBits(cfg: Config, found: byte, value: real) returns (after: bv8)
    requires !IsInteger(cfg.dataType) && Convertible(cfg.dataType, cfg.mask, value)
    ensures Stored(cfg, [found], value) == [OfBits(after)]
    ensures Merged(ToBits(found), cfg.mask, value, after)
  {
    after := WriteBits(ToBits(found), cfg.mask, value);
    WrittenBits(ToBits(found), cfg.mask, value);
  }

  /** After any sequence of updates of one byte with distinct one-bit masks, a bool channel with one of
      these masks reads the truth value that was last written through it. */
  lemma BoolReadsBack(b: bv8, us: seq<BitUpdate>, cfg: Config, i: nat)
    requires Exclusive(us) && i < |us| && cfg.dataType.BoolType? && cfg.mask == us[i].mask
    ensures RawAt(cfg, [OfBits(UpdateAll(b, us))]) == if us[i].value != 0.0 then 1 else 0
  {
    UpdatesIndependent(b, us, us[i].mask);
    OfBitsToBits(UpdateAll(b, us));
  }

  function Scaled(cfg: Config, x: real): real {
    cfg.factor * x + cfg.offset
  }

  function ReadValue(cfg: Config, bytes: seq<byte>): real
    requires |bytes| == Width(cfg.dataType)
  {
    Scaled(cfg, RawAt(cfg, bytes) as real)
  }

  /** The difference of two values in raw units. */
  function RawError(cfg: Config, x: real, y: real): real {
    (x - y) * cfg.factor
  }

  /** What an output channel writes on an update, if anything: the scaled command or the default. */
  function Output(cfg: Config, commands: seq<Double>): Double
    requires cfg.interfaceIndex < |commands|
  {
    if !cfg.allowWrite then NonFinite
    else if cfg.interfaceIndex >= 0 && commands[cfg.interfaceIndex].Fin? && !cfg.overrideCommand then
      Fin(Scaled(cfg, commands[cfg.interfaceIndex].r))
    else cfg.default
  }

  /** An integer channel reads back the truncated value it stored. */
  lemma IntegerRoundTrip(cfg: Config, found: seq<byte>, value: real)
    requires IsInteger(cfg.dataType) && WellTyped(cfg.dataType)
    requires |found| == Width(cfg.dataType) && Convertible(cfg.dataType, cfg.mask, value)
    ensures RawAt(cfg, Stored(cfg, found, value)) == Trunc(value)
  {
    var n := cfg.dataType.bytes;
    var u := if cfg.dataType.Unsigned? then Trunc(value) else ToUnsigned(Trunc(value), n);
    LeRoundTrip(u, n);
  }

  lemma SameRaw(a: Config, b: Config, bytes: seq<byte>)
    requires IsInteger(a.dataType) && a.dataType == b.dataType && |bytes| == Width(a.dataType)
    ensures RawAt(a, bytes) == RawAt(b, bytes)
  {
    match a.dataType
    case Unsigned(n) =>
    case Signed(n) =>
    case _ =>
  }

  lemma Reciprocals(f: real, o: real, g: real, p: real)
    requires f != 0.0 && g == 1.0 / f && p == -o / f
    ensures g * f == 1.0 && p * f == -o
  {
  }

  lemma Residue(f: real, o: real, g: real, p: real, command: real, r: real)
    requires g * f == 1.0 && p * f == -o
    ensures (g * r + p - command) * f == r - (f * command + o)
  {
    calc {
      (g * r + p - command) * f;
      (g * r) * f + p * f - command * f;
      { assert (g * r) * f == r * (g * f); }
      r - o - command * f;
    }
  }

  lemma ErrorIsLoss(out: Config, input: Config, command: real, r: real)
    requires input.factor * out.factor == 1.0 && input.offset * out.factor == -out.offset
    ensures RawError(out, Scaled(input, r), command) == r - Scaled(out, command)
  {
    Residue(out.factor, out.offset, input.factor, input.offset, command, r);
  }

  lemma TruncClose(x: real)
    ensures Abs(Trunc(x) as real - x) < 1.0 && Abs(Trunc(x) as real) <= Abs(x)
  {
  }

  /** Scaling, losing less than one raw unit, and scaling back. */
  lemma Unscale(out: Config, input: Config, command: real, raw: int, back: real)
    requires out.factor != 0.0 && raw == Trunc(Scaled(out, command)) && back == Scaled(input, raw as real)
    requires input.factor == 1.0 / out.factor && input.offset == -out.offset / out.factor
    ensures Abs(RawError(out, back, command)) < 1.0
  {
    Reciprocals(out.factor, out.offset, input.factor, input.offset);
    ErrorIsLoss(out, input, command, raw as real);
    TruncClose(Scaled(out, command));
  }

  /** An in-range command sent through an output channel and read back through an input channel of the
      same type with the reciprocal scaling is off by less than one raw unit. */
  lemma ReciprocalChannels(out: Config, input: Config, found: seq<byte>, command: real)
    requires IsInteger(out.dataType) && WellTyped(out.dataType) && |found| == Width(out.dataType)
    requires out.factor != 0.0 && input.dataType == out.dataType
    requires input.factor == 1.0 / out.factor && input.offset == -out.offset / out.factor
    requires Convertible(out.dataType, out.mask, Scaled(out, command))
    ensures var back := ReadValue(input, Stored(out, found, Scaled(out, command)));
            Abs(RawError(out, back, command)) < 1.0
  {
    var bytes := Stored(out, found, Scaled(out, command));
    IntegerRoundTrip(out, found, Scaled(out, command));
    SameRaw(out, input, bytes);
    Unscale(out, input, command, RawAt(input, bytes), ReadValue(input, bytes));
  }

  lemma UnderMask(x: bv8, mask: bv8)
    ensures x & mask & !mask == 0 && x & mask & mask == x & mask
  {
  }

  /** A bitN channel reads the bits under its mask, a bool channel whether there are any. */
  lemma ReadsUnderMask(cfg: Config, b: byte) returns (seen: bv8)
    requires cfg.dataType.Bits?
    ensures RawAt(cfg, [b]) == OfBits(seen)
    ensures seen & !cfg.mask == 0 && seen & cfg.mask == ToBits(b) & cfg.mask
  {
    seen := ToBits(b) & cfg.mask;
    UnderMask(ToBits(b), cfg.mask);
  }

  lemma BoolReadsUnderMask(cfg: Config, b: byte)
    requires cfg.dataType.BoolType?
    ensures RawAt(cfg, [b]) == if ToBits(b) & cfg.mask == 0 then 0 else 1
  {
  }

  // ------------------------------------------------------------------ an update

  /** The image, the states and last_value. */
  datatype Effect = Effect(image: seq<byte>, states: seq<Double>, last: Double)

  /** The channel lies in the image, its interface exists, and what it writes can be converted. */
  predicate Updatable(cfg: Config, e: Effect, at: nat, commands: seq<Double>) {
    && WellTyped(cfg.dataType) && at + Width(cfg.dataType) <= |e.image|
    && cfg.interfaceIndex < (if cfg.rpdo then |commands| else |e.states|)
    && (cfg.rpdo && Output(cfg, commands).Fin? ==> Convertible(cfg.dataType, cfg.mask, Output(cfg, commands).r))
  }

  function Updated(cfg: Config, e: Effect, at: nat, commands: seq<Double>): (r: Effect)
    requires Updatable(cfg, e, at, commands)
    ensures |r.image| == |e.image| && |r.states| == |e.states|
  {
    var found := e.image[at..at + Width(cfg.dataType)];
    if !cfg.rpdo then
      var value := Fin(ReadValue(cfg, found));
      e.(states := if cfg.interfaceIndex >= 0 then e.states[cfg.interfaceIndex := value] else e.states, last := value)
    else
      var value := Output(cfg, commands);
      if value.NonFinite? then e else e.(image := Splice(e.image, at, Stored(cfg, found, value.r)), last := value)
  }

  /** What the channel's bytes hold afterwards. */
  function RawAfter(cfg: Config, e: Effect, at: nat, commands: seq<Double>): int
    requires Updatable(cfg, e, at, commands)
  {
    RawAt(cfg, Updated(cfg, e, at, commands).image[at..at + Width(cfg.dataType)])
  }

  /** An integer output channel stores what it sends, without its fraction. */
  lemma StoresOutput(cfg: Config, e: Effect, at: nat, commands: seq<Double>)
    requires Updatable(cfg, e, at, commands) && cfg.rpdo && IsInteger(cfg.dataType)
    ensures if Output(cfg, commands).Fin? then RawAfter(cfg, e, at, commands) == Trunc(Output(cfg, commands).r)
            else Updated(cfg, e, at, commands) == e
  {
    if Output(cfg, commands).Fin? {
      var found := e.image[at..at + Width(cfg.dataType)];
      var stored := Stored(cfg, found, Output(cfg, commands).r);
      assert Updated(cfg, e, at, commands).image[at..at + Width(cfg.dataType)] == stored;
      IntegerRoundTrip(cfg, found, Output(cfg, commands).r);
    }
  }

  /** A channel that may write sends its finite command, scaled, unless it is overridden; failing that its default as
      it stands; failing that, and if it may not write, nothing. */
  lemma SendsWhat(cfg: Config, commands: seq<Double>)
    requires cfg.interfaceIndex < |commands|
    ensures var i, r := cfg.interfaceIndex, Output(cfg, commands);
            var commanded := i >= 0 && commands[i].Fin? && !cfg.overrideCommand;
            && (r.Fin? <==> cfg.allowWrite && (commanded || cfg.default.Fin?))
            && (cfg.allowWrite && commanded ==> r == Fin(cfg.factor * commands[i].r + cfg.offset))
            && (cfg.allowWrite && !commanded ==> r == cfg.default)
  {
  }

  /** An input channel puts its scaled raw number into its own state and nowhere else. */
  lemma ReadsScaled(cfg: Config, e: Effect, at: nat, commands: seq<Double>)
    requires Updatable(cfg, e, at, commands) && !cfg.rpdo && cfg.interfaceIndex >= 0
    ensures var r := Updated(cfg, e, at, commands);
            && r.image == e.image
            && r.states[cfg.interfaceIndex] == r.last
            && r.last == Fin(Scaled(cfg, RawAt(cfg, e.image[at..at + Width(cfg.dataType)]) as real))
            && forall k | 0 <= k < |e.states| && k != cfg.interfaceIndex :: r.states[k] == e.states[k]
  {
  }

  /** A command sent by an update of an output channel comes back, by an update of an input channel of the same type
      with the reciprocal scaling at the same place, as the state, off by less than one raw unit. */
  lemma CommandArrives(out: Config, input: Config, e: Effect, at: nat, commands: seq<Double>)
    requires IsInteger(out.dataType) && input.dataType == out.dataType && out.rpdo && !input.rpdo
    requires out.allowWrite && !out.overrideCommand && out.interfaceIndex >= 0 && input.interfaceIndex >= 0
    requires Updatable(out, e, at, commands) && input.interfaceIndex < |e.states|
    requires commands[out.interfaceIndex].Fin? && out.factor != 0.0
    requires input.factor == 1.0 / out.factor && input.offset == -out.offset / out.factor
    ensures var sent := Updated(out, e, at, commands);
            && Updatable(input, sent, at, commands)
            && var got := Updated(input, sent, at, commands).states[input.interfaceIndex];
               got.Fin? && Abs(RawError(out, got.r, commands[out.interfaceIndex].r)) < 1.0
  {
    var command := commands[out.interfaceIndex].r;
    var sent := Updated(out, e, at, commands);
    StoresOutput(out, e, at, commands);
    SameRaw(out, input, sent.image[at..at + Width(out.dataType)]);
    Unscale(out, input, command, Trunc(Scaled(out, command)),
      Scaled(input, Trunc(Scaled(out, command)) as real));
  }

  // ------------------------------------------------------------------ the channel object

  class Channel {
    const cfg: Config
    const commands: array<Double>
    const states: array<Double>
    var lastValue: Double
    var buffer: bv8

    constructor (cfg: Config, states: array<Double>, commands: array<Double>)
      ensures this.cfg == cfg && this.states == states && this.commands == commands
    {
      this.cfg, this.states, this.commands := cfg, states, commands;
      lastValue, buffer := NonFinite, 0;
    }

    predicate Fits(image: array<byte>, at: nat)
      reads this
    {
      WellTyped(cfg.dataType) && at + Width(cfg.dataType) <= image.Length
    }

    function Place(image: array<byte>, at: nat): (bytes: seq<byte>)
      requires Fits(image, at)
      reads this, image
      ensures |bytes| == Width(cfg.dataType)
    {
      image[at..at + Width(cfg.dataType)]
    }

    /** ec_read. */
    method Read(image: array<byte>, at: nat) returns (value: real)
      requires Fits(image, at)
      modifies this`lastValue
      ensures value == ReadValue(cfg, Place(image, at)) && lastValue == Fin(value)
    {
      var bytes := Place(image, at);
      var raw: int;
      match cfg.dataType {
        case Unsigned(n) => raw := LeValue(bytes);
        case Signed(n) => raw := ToSigned(LeValue(bytes), n);
        case BoolType => raw := if ToBits(bytes[0]) & cfg.mask != 0 then 1 else 0;
        case Bits => raw := OfBits(ToBits(bytes[0]) & cfg.mask);
      }
      value := Scaled(cfg, raw as real);
      lastValue := Fin(value);
    }

    /** The EC_WRITE macros. */
    static method Store(image: array<byte>, at: nat, bytes: seq<byte>)
      requires at + |bytes| <= image.Length
      modifies image
      ensures image[..] == Splice(old(image[..]), at, bytes)
    {
      for i := 0 to |bytes|
        invariant forall k | 0 <= k < image.Length ::
                    image[k] == if at <= k < at + i then bytes[k - at] else old(image[k])
      {
        image[at + i] := bytes[i];
      }
    }

    method MergeByte(b: bv8, count: nat, value: real)
      requires count == 1 || cfg.mask == 0 || 0 <= Trunc(value) < 256
      modifies this`buffer
      ensures buffer == Masked(b, cfg.mask, count, value)
    {
      buffer := b;
      if count == 1 {
        buffer := buffer & !cfg.mask;
        if value != 0.0 {
          buffer := buffer | cfg.mask;
        }
      } else if cfg.mask != 0 {
        buffer := 0;
        buffer := buffer | (Narrow(value) & cfg.mask);
      }
    }

    /** What bool and bitN channels make of the byte they find. */
    method MaskByte(b: bv8, value: real)
      requires Convertible(Bits, cfg.mask, value)
      modifies this`buffer
      ensures buffer == WriteBits(b, cfg.mask, value)
    {
      var count := CountBits(cfg.mask);
      MergeByte(b, count, value);
    }

    /** ec_write: the channel's bytes and no others. */
    method Write(image: array<byte>, at: nat, value: real)
      requires Fits(image, at) && Convertible(cfg.dataType, cfg.mask, value)
      modifies this`lastValue, this`buffer, image
      ensures image[..] == Splice(old(image[..]), at, Stored(cfg, old(Place(image, at)), value))
      ensures lastValue == Fin(value)
    {
      var bytes: seq<byte>;
      match cfg.dataType {
        case Unsigned(n) => bytes := LeBytes(Trunc(value), n);
        case Signed(n) => bytes := LeBytes(ToUnsigned(Trunc(value), n), n);
        case _ =>
          MaskByte(ToBits(image[at]), value);
          bytes := [OfBits(buffer)];
      }
      Store(image, at, bytes);
      lastValue := Fin(value);
    }

    /** ec_update. */
    method Update(image: array<byte>, at: nat)
      requires image as object != states as object
      requires Updatable(cfg, Effect(image[..], states[..], lastValue), at, commands[..])
      modifies this`lastValue, this`buffer, image, states
      ensures Effect(image[..], states[..], lastValue)
              == Updated(cfg, old(Effect(image[..], states[..], lastValue)), at, old(commands[..]))
      ensures cfg.rpdo && Output(cfg, old(commands[..])).Fin? ==>
                var value := Output(cfg, old(commands[..])).r;
                image[..] == Splice(old(image[..]), at, Stored(cfg, old(Place(image, at)), value))
      ensures !cfg.rpdo || Output(cfg, old(commands[..])).NonFinite? ==> image[..] == old(image[..])
    {
      if !cfg.rpdo {
        var value := Read(image, at);
        if cfg.interfaceIndex >= 0 {
          states[cfg.interfaceIndex] := Fin(value);
        }
      } else if cfg.allowWrite {
        if cfg.interfaceIndex >= 0 && commands[cfg.interfaceIndex].Fin? && !cfg.overrideCommand {
          Write(image, at, Scaled(cfg, commands[cfg.interfaceIndex].r));
        } else if cfg.default.Fin? {
          Write(image, at, cfg.default.r);
        }
      }
    }
  }
}

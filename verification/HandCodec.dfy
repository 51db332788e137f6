/** From joint angles to Modbus register words and back: percent, finger remap, byte-pair packing. */
module HandCodec {
  import opened Bytes
  import opened Numbers

  const FINGERS := 6

  type Percent = p: int | 0 <= p <= 100

  /** max_joint_rad, or 100 degrees if it is not positive. */
  function Span(maxJointRad: real): (m: real)
    ensures m > 0.0
  {
    if maxJointRad <= 0.0 then 100.0 * PI / 180.0 else maxJointRad
  }

  function InPercent(rad: real, span: real): real
    requires span > 0.0
  {
    rad / span * 100.0
  }

  function RadToPercent(rad: real, maxJointRad: real): Percent {
    ClampInt(RoundHalfEven(InPercent(rad, Span(maxJointRad))), 0, 100)
  }

  function PercentToRad(percent: int, maxJointRad: real): real {
    percent as real / 100.0 * Span(maxJointRad)
  }

  // ------------------------------------------------------------------ quantisation

  lemma RoundHalfEvenError(x: real)
    ensures Abs(RoundHalfEven(x) as real - x) <= 0.5
  {
  }

  lemma Cancel(q: real, m: real)
    requires m > 0.0
    ensures q * m / m == q
  {
  }

  lemma InPercentInverse(p: int, maxJointRad: real)
    ensures InPercent(PercentToRad(p, maxJointRad), Span(maxJointRad)) == p as real
  {
    Cancel(p as real / 100.0, Span(maxJointRad));
  }

  /** Whole percents survive the conversion to radians and back. */
  lemma PercentsExact(p: Percent, maxJointRad: real)
    ensures RadToPercent(PercentToRad(p, maxJointRad), maxJointRad) == p
  {
    InPercentInverse(p, maxJointRad);
    assert RoundHalfEven(p as real) == p;
  }

  lemma ErrorInPercent(p: int, rad: real, m: real)
    requires m > 0.0
    ensures p as real / 100.0 * m - rad == (p as real - InPercent(rad, m)) * m / 100.0
  {
    var q := rad / m;
    assert q * m == rad;
    assert (p as real - q * 100.0) * m == p as real * m - 100.0 * (q * m);
  }

  lemma SignOfProduct(x: real, m: real)
    requires m > 0.0
    ensures x * m >= 0.0 <==> x >= 0.0
  {
  }

  lemma HalfMinus(e: real, m: real)
    ensures (0.5 - e) * m == 0.5 * m - e * m && -e * m == -(e * m)
  {
  }

  lemma HalfPercent(e: real, m: real)
    requires m > 0.0
    ensures Abs(e * m / 100.0) <= m / 200.0 <==> Abs(e) <= 0.5
  {
    SignOfProduct(0.5 - e, m);
    SignOfProduct(0.5 + e, m);
    HalfMinus(e, m);
    HalfMinus(-e, m);
  }

  lemma ClampedRounding(x: real)
    ensures Abs(ClampInt(RoundHalfEven(x), 0, 100) as real - x) <= 0.5 <==> -0.5 <= x <= 100.5
  {
    RoundHalfEvenError(x);
  }

  /** The angle after the round trip is within max_joint_rad / 200 exactly if the angle lies within half
      a percent of the hand's range. */
  lemma QuantisationIff(rad: real, maxJointRad: real)
    ensures var m := Span(maxJointRad);
            Abs(PercentToRad(RadToPercent(rad, maxJointRad), maxJointRad) - rad) <= m / 200.0
            <==> -0.5 <= InPercent(rad, m) <= 100.5
  {
    var m, p := Span(maxJointRad), RadToPercent(rad, maxJointRad);
    ClampedRounding(InPercent(rad, m));
    ErrorInPercent(p, rad, m);
    HalfPercent(p as real - InPercent(rad, m), m);
  }

  lemma PastEither(rad: real, m: real)
    requires m > 0.0
    ensures rad <= 0.0 ==> InPercent(rad, m) <= 0.0
    ensures rad >= m ==> InPercent(rad, m) >= 100.0
  {
    var q := rad / m;
    assert q * m == rad;
    if rad <= 0.0 {
      SignOfProduct(-q, m);
      assert -q * m == -(q * m);
    }
    if rad >= m {
      SignOfProduct(q - 1.0, m);
      assert (q - 1.0) * m == q * m - m;
    }
  }

  /** The hand's range ends at max_joint_rad, or at 100 degrees if that is not positive; an angle at or beyond either
      end becomes 0 or 100 percent. */
  lemma RangeEnds(rad: real, maxJointRad: real)
    ensures var end := if maxJointRad > 0.0 then maxJointRad else 100.0 * PI / 180.0;
            && PercentToRad(0, maxJointRad) == 0.0 && PercentToRad(100, maxJointRad) == end
            && (rad <= 0.0 ==> RadToPercent(rad, maxJointRad) == 0)
            && (rad >= end ==> RadToPercent(rad, maxJointRad) == 100)
  {
    PastEither(rad, Span(maxJointRad));
  }

  /** A half percent goes to the even neighbour. */
  lemma HalvesToEven(n: int)
    ensures var r := RoundHalfEven(n as real + 0.5); (r == n || r == n + 1) && r % 2 == 0
  {
  }

  lemma InRange(rad: real, m: real)
    requires m > 0.0 && 0.0 <= rad <= m
    ensures 0.0 <= InPercent(rad, m) <= 100.0
  {
    assert 0.0 <= rad / m <= 1.0;
  }

  // ------------------------------------------------------------------ remap

  function Remap<T>(xs: seq<T>): (r: seq<T>)
    requires |xs| == FINGERS
    ensures |r| == FINGERS
  {
    [xs[1], xs[0], xs[3], xs[2], xs[5], xs[4]]
  }

  /** The feedback's inverse remap is the same table. */
  lemma RemapTwice<T>(xs: seq<T>)
    requires |xs| == FINGERS
    ensures Remap(Remap(xs)) == xs
  {
    var r := Remap(xs);
    assert Remap(r) == [r[1], r[0], r[3], r[2], r[5], r[4]];
    assert xs == [xs[0], xs[1], xs[2], xs[3], xs[4], xs[5]];
  }

  // ------------------------------------------------------------------ packing

  datatype PackMode = RawBytes | PackedWords

  datatype PairOrder = LowHigh | HighLow

  function ToByte(v: int): byte {
    ClampInt(v, 0, 255)
  }

  function Word(first: byte, second: byte, order: PairOrder): nat {
    if order.LowHigh? then second * 256 + first else first * 256 + second
  }

  /** The words of the first k pairs. */
  function PairWords(adjusted: seq<int>, order: PairOrder, k: nat): (r: seq<nat>)
    requires 2 * k <= |adjusted|
    ensures |r| == k
  {
    seq(k, i requires 0 <= i < k => Word(ToByte(adjusted[2 * i]), ToByte(adjusted[2 * i + 1]), order))
  }

  datatype Packed = Packed(data: seq<int>, num: nat)

  function Pack(adjusted: seq<int>, mode: PackMode, order: PairOrder): Packed {
    if mode.RawBytes? then Packed(adjusted, 3)
    else if |adjusted| != FINGERS then Packed(adjusted, |adjusted|)
    else Packed(PairWords(adjusted, order, 3), 3)
  }

  /** _pack_hand_register_data_for_rm_driver. */
  method PackRegisters(adjusted: seq<int>, mode: PackMode, order: PairOrder) returns (data: seq<int>, num: nat)
    ensures Packed(data, num) == Pack(adjusted, mode, order)
    ensures mode.RawBytes? ==> data == adjusted && num == 3
    ensures mode.PackedWords? && |adjusted| != 6 ==> data == adjusted && num == |adjusted|
  {
    if mode.RawBytes? {
      return adjusted, 3;
    }
    if |adjusted| != FINGERS {
      return adjusted, |adjusted|;
    }
    var words: seq<int> := [];
    for i := 0 to 3
      invariant words == PairWords(adjusted, order, i)
    {
      var first: int := ToByte(adjusted[2 * i]);
      var second: int := ToByte(adjusted[2 * i + 1]);
      var word := if order.LowHigh? then second * 256 + first else first * 256 + second;
      words := words + [word];
    }
    return words, |words|;
  }

  /** The bytes of 16-bit registers on the wire: section 4.2 of the Modbus Application Protocol V1.1b3
      sends the most significant byte first. */
  function RegisterBytes(words: seq<nat>): (r: seq<byte>)
    requires forall i | 0 <= i < |words| :: words[i] < 0x1_0000
    ensures |r| == 2 * |words|
  {
    seq(2 * |words|, i requires 0 <= i < 2 * |words| => if i % 2 == 0 then words[i / 2] / 256 else words[i / 2] % 256)
  }

  lemma WordBytes(first: byte, second: byte, order: PairOrder)
    ensures var w := Word(first, second, order);
            && w < 0x1_0000
            && w / 256 == (if order.HighLow? then first else second)
            && w % 256 == (if order.HighLow? then second else first)
  {
  }

  function ToBytes(values: seq<int>): (r: seq<byte>)
    ensures |r| == |values|
  {
    seq(|values|, i requires 0 <= i < |values| => ToByte(values[i]))
  }

  lemma ThreeWords(adjusted: seq<int>, order: PairOrder)
    requires |adjusted| == FINGERS
    ensures var bs := ToBytes(adjusted);
            PairWords(adjusted, order, 3)
            == [Word(bs[0], bs[1], order), Word(bs[2], bs[3], order), Word(bs[4], bs[5], order)]
  {
  }

  lemma ThreeRegisters(a: nat, b: nat, c: nat)
    requires a < 0x1_0000 && b < 0x1_0000 && c < 0x1_0000
    ensures RegisterBytes([a, b, c]) == [a / 256, a % 256, b / 256, b % 256, c / 256, c % 256]
  {
  }

  /** What the device's byte array holds: high_low puts the values, clamped to bytes, on the wire in their
      order, low_high exchanges each pair. */
  lemma PackedOnTheWire(adjusted: seq<int>, order: PairOrder)
    requires |adjusted| == FINGERS
    ensures var p := Pack(adjusted, PackedWords, order);
            && p.num == |p.data| == 3
            && (forall i | 0 <= i < 3 :: 0 <= p.data[i] < 0x1_0000)
            && RegisterBytes(p.data) == if order.HighLow? then ToBytes(adjusted) else Remap(ToBytes(adjusted))
  {
    var bs := ToBytes(adjusted);
    WordBytes(bs[0], bs[1], order);
    WordBytes(bs[2], bs[3], order);
    WordBytes(bs[4], bs[5], order);
    ThreeWords(adjusted, order);
    ThreeRegisters(Word(bs[0], bs[1], order), Word(bs[2], bs[3], order), Word(bs[4], bs[5], order));
    assert bs == [bs[0], bs[1], bs[2], bs[3], bs[4], bs[5]];
  }

  lemma RemapAt(bs: seq<byte>, i: nat)
    requires |bs| == FINGERS && i < FINGERS
    ensures Remap(bs)[if i % 2 == 0 then i + 1 else i - 1] == bs[i]
  {
  }

  /** Byte by byte: the i-th value, clamped, is the i-th byte on the wire or its pair's other one. */
  lemma ByteOnTheWire(adjusted: seq<int>, order: PairOrder, i: nat)
    requires |adjusted| == FINGERS && i < FINGERS
    ensures var p := Pack(adjusted, PackedWords, order);
            var place := if order.HighLow? then i else if i % 2 == 0 then i + 1 else i - 1;
            && (forall k | 0 <= k < |p.data| :: 0 <= p.data[k] < 0x1_0000)
            && |p.data| == 3
            && RegisterBytes(p.data)[place]
               == if adjusted[i] < 0 then 0 else if adjusted[i] > 255 then 255 else adjusted[i]
  {
    PackedOnTheWire(adjusted, order);
    RemapAt(ToBytes(adjusted), i);
  }

  /** Unpacking with the order that packed gives the values back. */
  function Unpack(words: seq<nat>, order: PairOrder): (r: seq<byte>)
    requires |words| == 3 && forall i | 0 <= i < |words| :: words[i] < 0x1_0000
    ensures |r| == FINGERS
  {
    var bytes := RegisterBytes(words);
    if order.HighLow? then bytes else Remap(bytes)
  }

  // ------------------------------------------------------------------ the whole pipeline

  function Percents(rads: seq<real>, maxJointRad: real): (r: seq<Percent>)
    ensures |r| == |rads|
  {
    seq(|rads|, i requires 0 <= i < |rads| => RadToPercent(rads[i], maxJointRad))
  }

  lemma PercentsPush(rads: seq<real>, rad: real, maxJointRad: real)
    ensures Percents(rads + [rad], maxJointRad) == Percents(rads, maxJointRad) + [RadToPercent(rad, maxJointRad)]
  {
  }

  function Rads(percents: seq<int>, maxJointRad: real): (r: seq<real>)
    ensures |r| == |percents|
  {
    seq(|percents|, i requires 0 <= i < |percents| => PercentToRad(percents[i], maxJointRad))
  }

  function Mapped(data: seq<int>): (r: seq<Percent>)
    requires |data| >= FINGERS
    ensures |r| == FINGERS
  {
    seq(FINGERS, i requires 0 <= i < FINGERS => ClampInt(data[i], 0, 100))
  }

  /** publish_feedback_state: six values clamped, remapped and turned into angles. */
  function Feedback(data: seq<int>, maxJointRad: real): (r: seq<real>)
    requires |data| >= FINGERS
    ensures |r| == FINGERS
  {
    Rads(Remap(Mapped(data)), maxJointRad)
  }

  lemma ZeroPercent(maxJointRad: real)
    ensures PercentToRad(0, maxJointRad) == 0.0
  {
  }

  lemma PercentMonotone(p: int, q: int, maxJointRad: real)
    requires p <= q
    ensures PercentToRad(p, maxJointRad) <= PercentToRad(q, maxJointRad)
  {
    SignOfProduct((q - p) as real / 100.0, Span(maxJointRad));
    assert (q - p) as real / 100.0 * Span(maxJointRad) == PercentToRad(q, maxJointRad) - PercentToRad(p, maxJointRad);
  }

  /** What the hand reports never leaves its range: values beyond 0 and 100 count as those. */
  lemma FeedbackInRange(data: seq<int>, maxJointRad: real, i: nat)
    requires |data| >= FINGERS && i < FINGERS
    ensures var place := if i % 2 == 0 then i + 1 else i - 1;
            && 0.0 <= Feedback(data, maxJointRad)[i] <= Span(maxJointRad)
            && (data[place] <= 0 ==> Feedback(data, maxJointRad)[i] == 0.0)
            && (data[place] >= 100 ==> Feedback(data, maxJointRad)[i] == Span(maxJointRad))
  {
    var place := if i % 2 == 0 then i + 1 else i - 1;
    assert Feedback(data, maxJointRad)[i] == PercentToRad(ClampInt(data[place], 0, 100), maxJointRad);
    ZeroPercent(maxJointRad);
    PercentMonotone(0, ClampInt(data[place], 0, 100), maxJointRad);
    PercentMonotone(ClampInt(data[place], 0, 100), 100, maxJointRad);
  }

  /** Six angles written in either byte order and read back by a device that reports what it was sent
      come back as the angles of their percents. */
  lemma PipelineRoundTrip(rads: seq<real>, maxJointRad: real, order: PairOrder)
    requires |rads| == FINGERS
    ensures var p := Pack(Remap(Percents(rads, maxJointRad)), PackedWords, order);
            && |p.data| == 3
            && (forall i | 0 <= i < 3 :: 0 <= p.data[i] < 0x1_0000)
            && Feedback(Unpack(p.data, order), maxJointRad) == Rads(Percents(rads, maxJointRad), maxJointRad)
  {
    var percents := Percents(rads, maxJointRad);
    var sent := Remap(percents);
    PackedOnTheWire(sent, order);
    RemapTwice(sent);
    var words := Pack(sent, PackedWords, order).data;
    assert ToBytes(sent) == sent;
    assert Unpack(words, order) == sent;
    assert Mapped(sent) == sent;
    RemapTwice(percents);
  }

  /** Each of them is within max_joint_rad / 200 of the commanded angle if that is in the hand's range. */
  lemma PipelineError(rads: seq<real>, maxJointRad: real, order: PairOrder, i: nat)
    requires |rads| == FINGERS && i < FINGERS && 0.0 <= rads[i] <= Span(maxJointRad)
    ensures var p := Pack(Remap(Percents(rads, maxJointRad)), PackedWords, order);
            && |p.data| == 3
            && (forall k | 0 <= k < 3 :: 0 <= p.data[k] < 0x1_0000)
            && Abs(Feedback(Unpack(p.data, order), maxJointRad)[i] - rads[i]) <= Span(maxJointRad) / 200.0
  {
    PipelineRoundTrip(rads, maxJointRad, order);
    InRange(rads[i], Span(maxJointRad));
    QuantisationIff(rads[i], maxJointRad);
  }
}

/** Little-endian integers in a byte image, as the EC_READ and EC_WRITE macros lay them out. */
module Bytes {

  type byte = x: int | 0 <= x < 256

  function Pow256(n: nat): (p: nat)
    ensures p >= 1
  {
    if n == 0 then 1 else 256 * Pow256(n - 1)
  }

  /** The n low bytes of v, least significant first. */
  function LeBytes(v: nat, n: nat): (bs: seq<byte>)
    ensures |bs| == n
  {
    if n == 0 then [] else [v % 256] + LeBytes(v / 256, n - 1)
  }

  function LeValue(bs: seq<byte>): nat {
    if |bs| == 0 then 0 else bs[0] + 256 * LeValue(bs[1..])
  }

  lemma {:induction false} LeRoundTrip(v: nat, n: nat)
    requires v < Pow256(n)
    ensures LeValue(LeBytes(v, n)) == v
  {
    if n > 0 {
      LeRoundTrip(v / 256, n - 1);
      assert LeBytes(v, n)[1..] == LeBytes(v / 256, n - 1);
    }
  }

  predicate FitsSigned(v: int, n: nat) {
    var p: int := Pow256(n);
    -p <= 2 * v < p
  }

  predicate FitsUnsigned(v: int, n: nat) {
    0 <= v < Pow256(n)
  }

  function ToSigned(u: nat, n: nat): int {
    if 2 * u >= Pow256(n) then u - Pow256(n) else u
  }

  /** Two's complement on n bytes. */
  function ToUnsigned(v: int, n: nat): (u: nat)
    requires FitsSigned(v, n)
    ensures u < Pow256(n) && ToSigned(u, n) == v
  {
    if v < 0 then v + Pow256(n) else v
  }

  /** image with payload written at offset. */
  function Splice<T>(image: seq<T>, offset: nat, payload: seq<T>): (r: seq<T>)
    requires offset + |payload| <= |image|
    ensures |r| == |image|
  {
    image[..offset] + payload + image[offset + |payload|..]
  }

  /** Consecutive 16-bit words. */
  function Words(raws: seq<int>): (bs: seq<byte>)
    ensures |bs| == 2 * |raws|
  {
    if |raws| == 0 then []
    else Words(raws[..|raws| - 1]) + LeBytes(raws[|raws| - 1] % 0x1_0000, 2)
  }

  function WordAt(bs: seq<byte>, offset: nat): nat
    requires offset + 2 <= |bs|
  {
    LeValue(bs[offset..offset + 2])
  }

  lemma WordInSlice(bs: seq<byte>, lo: nat, hi: nat, offset: nat)
    requires lo + offset + 2 <= hi <= |bs|
    ensures WordAt(bs[lo..hi], offset) == WordAt(bs, lo + offset)
  {
    var at := lo + offset;
    var part := bs[lo..hi];
    assert part[offset..offset + 2] == [part[offset], part[offset + 1]] == bs[at..at + 2];
  }

  lemma WordAtValue(bs: seq<byte>, offset: nat)
    requires offset + 2 <= |bs|
    ensures WordAt(bs, offset) == bs[offset] as int + 256 * bs[offset + 1] as int < 0x1_0000
  {
    var w := bs[offset..offset + 2];
    var tail := w[1..];
    assert LeValue(tail) == tail[0] as int + 256 * LeValue(tail[1..]) && LeValue(tail[1..]) == 0;
    assert LeValue(w) == w[0] as int + 256 * LeValue(tail);
  }

  /** The k-th word of a word array is the k-th number modulo 2^16. */
  lemma {:induction false} WordsAt(raws: seq<int>, k: nat)
    requires k < |raws|
    ensures WordAt(Words(raws), 2 * k) == raws[k] % 0x1_0000
  {
    var n := |raws| - 1;
    var v := raws[n] % 0x1_0000;
    if k == n {
      assert Words(raws)[2 * n..2 * n + 2] == LeBytes(v, 2);
      assert Pow256(2) == 0x1_0000 by { assert Pow256(1) == 256; }
      LeRoundTrip(v, 2);
    } else {
      WordsAt(raws[..n], k);
      assert Words(raws)[2 * k..2 * k + 2] == Words(raws[..n])[2 * k..2 * k + 2];
    }
  }
}

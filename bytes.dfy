/**
 * Bytes as Node's `Buffer` holds them, and the little-endian 16-bit field
 * that `writeUInt16LE` / `readUInt16LE` put at a given offset.
 */
module Bytes {

  /** A `Buffer` element: a number from 0 to 255. */
  newtype byte = x: int | 0 <= x < 256

  /** The values `writeUInt16LE` accepts without throwing a RangeError. */
  type uint16 = n: int | 0 <= n < 0x1_0000

  function Zeros(n: nat): (r: seq<byte>)
    ensures |r| == n
    ensures forall i :: 0 <= i < n ==> r[i] == 0
  {
    seq(n, _ => 0)
  }

  function Pow2(k: nat): (r: nat)
    ensures r > 0
  {
    if k == 0 then 1 else 2 * Pow2(k - 1)
  }

  /** The exclusive or of the low `k` bits of `a` and `b`, built from the lowest bit up. */
  function XorBits(a: nat, b: nat, k: nat): (r: nat)
    ensures r < Pow2(k)
  {
    if k == 0 then 0 else (a + b) % 2 + 2 * XorBits(a / 2, b / 2, k - 1)
  }

  /** JavaScript's `a ^ b` on two byte values. */
  function XorByte(a: byte, b: byte): (r: byte)
  {
    assert Pow2(8) == 256;
    XorBits(a as int, b as int, 8) as byte
  }

  /** Exclusive or with zero keeps every bit, so any number below 2^k comes back unchanged. */
  lemma {:induction false} XorBitsZero(a: nat, k: nat)
    requires a < Pow2(k)
    ensures XorBits(a, 0, k) == a
  {
    if k > 0 {
      XorBitsZero(a / 2, k - 1);
    }
  }

  lemma XorByteZero(a: byte)
    ensures XorByte(a, 0) == a
  {
    assert Pow2(8) == 256;
    XorBitsZero(a as int, 8);
  }

  /** Byte-wise exclusive or of two buffers of the same length. */
  function Xor(a: seq<byte>, b: seq<byte>): (r: seq<byte>)
    requires |a| == |b|
    ensures |r| == |a|
  {
    seq(|a|, i requires 0 <= i < |a| => XorByte(a[i], b[i]))
  }

  lemma XorZeros(a: seq<byte>)
    ensures Xor(a, Zeros(|a|)) == a
  {
    forall i | 0 <= i < |a|
      ensures Xor(a, Zeros(|a|))[i] == a[i]
    {
      XorByteZero(a[i]);
    }
  }

  function Pow256(n: nat): (r: nat)
    ensures r > 0
  {
    if n == 0 then 1 else 256 * Pow256(n - 1)
  }

  /** The unsigned big-endian number a buffer spells, most significant byte first. */
  function BeValue(s: seq<byte>): nat
  {
    if s == [] then 0 else s[0] as int * Pow256(|s| - 1) + BeValue(s[1..])
  }

  /** The two bytes `writeUInt16LE(n)` writes: low byte first. */
  function U16Le(n: uint16): (r: seq<byte>)
    ensures |r| == 2
  {
    [ByteOf(n % 256), ByteOf(n / 256)]
  }

  /** The two bytes `writeUInt16BE(n)` writes: high byte first. */
  function U16Be(n: uint16): (r: seq<byte>)
    ensures |r| == 2
  {
    [ByteOf(n / 256), ByteOf(n % 256)]
  }

  /** `readUInt16LE(offset)`: the 16-bit value of the two bytes at `offset`, low byte first. */
  function ReadU16Le(s: seq<byte>, offset: nat): (r: uint16)
    requires offset + 2 <= |s|
    ensures r % 256 == s[offset] as int && r / 256 == s[offset + 1] as int
  {
    s[offset] as int + 256 * s[offset + 1] as int
  }

  lemma {:induction false} U16LeRoundTrip(n: uint16, prefix: seq<byte>, suffix: seq<byte>)
    ensures ReadU16Le(prefix + U16Le(n) + suffix, |prefix|) == n
  {
    var s := prefix + U16Le(n) + suffix;
    assert s[|prefix|] == ByteOf(n % 256) && s[|prefix| + 1] == ByteOf(n / 256);
  }

  /** The byte holding a value below 256. */
  function ByteOf(x: int): (b: byte)
    requires 0 <= x < 256
    ensures b as int == x
  {
    x as byte
  }
}

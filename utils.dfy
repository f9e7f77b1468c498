/**
 * `hexToBytes` and `bytesToHex`: hex text to bytes two digits at a time,
 * and bytes to lower-case hex text.
 */
module HexUtils {
  import opened Wrappers
  import opened Bytes

  predicate IsHexDigit(ch: char)
  {
    '0' <= ch <= '9' || 'a' <= ch <= 'f' || 'A' <= ch <= 'F'
  }

  predicate IsLowerHexDigit(ch: char)
  {
    '0' <= ch <= '9' || 'a' <= ch <= 'f'
  }

  /** Text made of hex digits only, so that `parseInt(_, 16)` reads every chunk in full. */
  predicate IsHex(s: string)
  {
    forall i :: 0 <= i < |s| ==> IsHexDigit(s[i])
  }

  predicate IsLowerHex(s: string)
  {
    forall i :: 0 <= i < |s| ==> IsLowerHexDigit(s[i])
  }

  /** The value `parseInt` gives one hex digit, either case. */
  function DigitValue(ch: char): (v: nat)
    requires IsHexDigit(ch)
    ensures v < 16
  {
    if '0' <= ch <= '9' then ch as int - '0' as int
    else if 'a' <= ch <= 'f' then ch as int - 'a' as int + 10
    else ch as int - 'A' as int + 10
  }

  /** The lower-case digit `Buffer.toString('hex')` writes for a value below 16. */
  function HexDigit(v: nat): (ch: char)
    requires v < 16
    ensures IsLowerHexDigit(ch) && DigitValue(ch) == v
  {
    if v < 10 then ('0' as int + v) as char else ('a' as int + v - 10) as char
  }

  lemma HexDigitOfValue(ch: char)
    requires IsLowerHexDigit(ch)
    ensures HexDigit(DigitValue(ch)) == ch
  {
  }

  /** The characters `parseInt` skips before a number: JavaScript white space and line terminators. */
  predicate IsJsSpace(ch: char)
  {
    var c := ch as int;
    0x09 <= c <= 0x0D || c == 0x20 || c == 0xA0 || c == 0x1680 || 0x2000 <= c <= 0x200A ||
    c == 0x2028 || c == 0x2029 || c == 0x202F || c == 0x205F || c == 0x3000 || c == 0xFEFF
  }

  /**
   * `parseInt(chunk, 16)` for the one or two characters `hex.substr(i, 2)`
   * yields; `None` is NaN. Leading white space and one sign are skipped, a
   * `0x` prefix is dropped, and the digits up to the first non-digit are read.
   */
  function ParseIntHex(chunk: string): (r: Option<int>)
    requires 1 <= |chunk| <= 2
    ensures r.Some? ==> -15 <= r.value < 256
  {
    var c := chunk[0];
    var next := if |chunk| == 2 then Some(chunk[1]) else None;
    if c == '0' && (next == Some('x') || next == Some('X')) then None
    else if IsHexDigit(c) then
      if next.Some? && IsHexDigit(next.value) then Some(16 * DigitValue(c) + DigitValue(next.value))
      else Some(DigitValue(c))
    else if next.None? || !IsHexDigit(next.value) then None
    else if IsJsSpace(c) || c == '+' then Some(DigitValue(next.value))
    else if c == '-' then Some(0 - DigitValue(next.value) as int)
    else None
  }

  /** `Buffer.from([v])[0]`: NaN becomes 0 and any other value is taken modulo 256. */
  function ToUint8(v: Option<int>): (b: byte)
    ensures v.None? ==> b == 0
    ensures v.Some? && 0 <= v.value < 256 ==> b as int == v.value
  {
    if v.None? then 0 else ByteOf(v.value % 256)
  }

  /** The byte `hexToBytes` stores for one chunk. */
  function ChunkValue(chunk: string): byte
    requires 1 <= |chunk| <= 2
  {
    ToUint8(ParseIntHex(chunk))
  }

  /** A well-formed chunk reads as its hex value, the first digit the more significant. */
  lemma HexChunkValue(chunk: string)
    requires 1 <= |chunk| <= 2 && IsHex(chunk)
    ensures |chunk| == 1 ==> ChunkValue(chunk) as int == DigitValue(chunk[0])
    ensures |chunk| == 2 ==> ChunkValue(chunk) as int == 16 * DigitValue(chunk[0]) + DigitValue(chunk[1])
  {
  }

  /** A chunk that is not hex at all is NaN to `parseInt` and 0 once in the buffer. */
  lemma NonHexChunkIsZero(chunk: string)
    requires 1 <= |chunk| <= 2
    requires forall i :: 0 <= i < |chunk| ==> !IsHexDigit(chunk[i])
    ensures ChunkValue(chunk) == 0
  {
  }

  /** A minus sign before a digit gives the digit's negative, which the buffer stores modulo 256. */
  lemma NegativeChunkWraps(d: char)
    requires IsHexDigit(d) && DigitValue(d) > 0
    ensures ChunkValue(['-', d]) as int == 256 - DigitValue(d)
  {
  }

  /**
   * What the loop of `hexToBytes` collects: one byte per chunk of two
   * characters, and for an odd length a last byte from the single character
   * left over.
   */
  function HexDecoded(h: string): (r: seq<byte>)
    ensures |r| == (|h| + 1) / 2
    decreases |h|
  {
    if |h| == 0 then []
    else if |h| <= 2 then [ChunkValue(h)]
    else [ChunkValue(h[..2])] + HexDecoded(h[2..])
  }

  /** On hex text, byte i is 16 * digit(2i) + digit(2i+1); for an odd length the last byte is the value of the last digit. */
  lemma {:induction false} HexDecodedAt(h: string, i: nat)
    requires IsHex(h) && i < (|h| + 1) / 2
    ensures 2 * i + 1 < |h| ==> HexDecoded(h)[i] as int == 16 * DigitValue(h[2 * i]) + DigitValue(h[2 * i + 1])
    ensures 2 * i + 1 == |h| ==> HexDecoded(h)[i] as int == DigitValue(h[2 * i])
    decreases |h|
  {
    if i > 0 {
      HexDecodedAt(h[2..], i - 1);
      assert h[2..][2 * (i - 1)] == h[2 * i];
      assert 2 * i + 1 < |h| ==> h[2..][2 * (i - 1) + 1] == h[2 * i + 1];
    } else if |h| <= 2 {
      HexChunkValue(h);
    } else {
      HexChunkValue(h[..2]);
    }
  }

  /** `hexToBytes(hex)`: the loop with step 2, pushing one parsed chunk per round. */
  method HexToBytes(hex: string) returns (bytes: seq<byte>)
    ensures |bytes| == (|hex| + 1) / 2
    ensures bytes == HexDecoded(hex)
  {
    bytes := [];
    var i := 0;
    while i < |hex|
      invariant 0 <= i <= |hex| + 1 && i % 2 == 0
      invariant i <= |hex| || |hex| % 2 == 1
      invariant bytes == HexDecoded(hex[..if i <= |hex| then i else |hex|])
      decreases |hex| - i
    {
      var end := if i + 2 <= |hex| then i + 2 else |hex|;
      bytes := bytes + [ChunkValue(hex[i..end])];
      assert hex[..end] == hex[..i] + hex[i..end];
      HexDecodedAppend(hex[..i], hex[i..end]);
      i := i + 2;
    }
    assert hex[..|hex|] == hex;
  }

  lemma {:induction false} HexDecodedAppend(h: string, chunk: string)
    requires |h| % 2 == 0 && 1 <= |chunk| <= 2
    ensures HexDecoded(h + chunk) == HexDecoded(h) + [ChunkValue(chunk)]
    decreases |h|
  {
    if |h| > 0 {
      assert (h + chunk)[2..] == h[2..] + chunk;
      assert (h + chunk)[..2] == h[..2];
      HexDecodedAppend(h[2..], chunk);
    }
  }

  /** `buffer.toString('hex')`: two lower-case digits per byte, high nibble first. */
  function BytesToHex(b: seq<byte>): (h: string)
    ensures |h| == 2 * |b|
    ensures IsLowerHex(h)
  {
    if b == [] then "" else [HexDigit(b[0] as int / 16), HexDigit(b[0] as int % 16)] + BytesToHex(b[1..])
  }

  lemma LowerHexIsHex(h: string)
    requires IsLowerHex(h)
    ensures IsHex(h)
  {
  }

  lemma NibblesRoundTrip(v: byte)
    ensures ByteOf(16 * DigitValue(HexDigit(v as int / 16)) + DigitValue(HexDigit(v as int % 16))) == v
  {
  }

  lemma HexDecodedCons(hi: char, lo: char, rest: string)
    requires IsHexDigit(hi) && IsHexDigit(lo) && IsHex(rest)
    ensures IsHex([hi, lo] + rest)
    ensures HexDecoded([hi, lo] + rest) == [ByteOf(16 * DigitValue(hi) + DigitValue(lo))] + HexDecoded(rest)
  {
    var h := [hi, lo] + rest;
    assert h[2..] == rest && h[..2] == [hi, lo];
    HexChunkValue([hi, lo]);
    if rest == [] {
      assert h == [hi, lo];
    }
  }

  /** Decoding the hex text of any byte sequence gives the bytes back. */
  lemma {:induction false} HexRoundTrip(b: seq<byte>)
    ensures IsHex(BytesToHex(b))
    ensures HexDecoded(BytesToHex(b)) == b
  {
    LowerHexIsHex(BytesToHex(b));
    if b != [] {
      HexRoundTrip(b[1..]);
      var hi, lo := HexDigit(b[0] as int / 16), HexDigit(b[0] as int % 16);
      HexDecodedCons(hi, lo, BytesToHex(b[1..]));
      NibblesRoundTrip(b[0]);
    }
  }

  /** Re-encoding decoded even-length lower-case hex gives the text back. */
  lemma {:induction false} HexRoundTripText(h: string)
    requires IsLowerHex(h) && |h| % 2 == 0
    ensures IsHex(h) && BytesToHex(HexDecoded(h)) == h
  {
    assert IsHex(h);
    if h != [] {
      HexRoundTripText(h[2..]);
      var b := HexDecoded(h);
      assert b[1..] == HexDecoded(h[2..]);
      var hi, lo := DigitValue(h[0]), DigitValue(h[1]);
      var x := 16 * hi + lo;
      assert b[0] as int == x;
      assert x / 16 == hi && x % 16 == lo;
      HexDigitOfValue(h[0]);
      HexDigitOfValue(h[1]);
      assert BytesToHex(b) == [h[0], h[1]] + h[2..];
    }
  }
}

/**
 * AES-128 (ECB, no padding) as an abstract keyed permutation, and the
 * from-scratch AES-CMAC of RFC 4493 built on it: subkey derivation by
 * doubling, `0x80`/zero padding, last-block subkey XOR and the CBC-MAC chain.
 *
 * `AesCmac` is the code as written; `CmacAsWritten` is the function it is
 * proved against. `Rfc4493Cmac` is the algorithm of section 2.4 of RFC 4493,
 * which differs from the code only on the empty message.
 */
module Crypto {
  import opened Wrappers
  import opened Bytes

  const BlockSize: nat := 16

  type Block = s: seq<byte> | |s| == 16
    witness [0, 0, 0, 0, 0, 0, 0, 0, 0, 0, 0, 0, 0, 0, 0, 0]

  const ZeroBlock: Block := [0, 0, 0, 0, 0, 0, 0, 0, 0, 0, 0, 0, 0, 0, 0, 0]

  /** AES-128 on one block under a 16-byte key, in both directions; the cipher itself is not modelled. */
  datatype BlockCipher = BlockCipher(encrypt: (Block, Block) -> Block, decrypt: (Block, Block) -> Block)

  /** What is assumed of AES: decryption under a key undoes encryption under the same key. */
  ghost predicate IsPermutation(aes: BlockCipher)
  {
    forall key: Block, b: Block :: aes.decrypt(key, aes.encrypt(key, b)) == b
  }

  /** The errors Node's `createCipheriv`/`final` throw with auto-padding off. */
  datatype CipherError = InvalidKeyLength | WrongFinalBlockLength

  /** One block through AES under `key`, forwards or backwards. */
  function Cipher(aes: BlockCipher, decrypting: bool, key: Block, b: Block): Block
  {
    if decrypting then aes.decrypt(key, b) else aes.encrypt(key, b)
  }

  /** ECB: every 16-byte block of `data` is passed through the cipher on its own. */
  function Ecb(aes: BlockCipher, decrypting: bool, key: Block, data: seq<byte>): (r: seq<byte>)
    requires |data| % 16 == 0
    ensures |r| == |data|
    decreases |data|
  {
    if |data| == 0 then [] else Cipher(aes, decrypting, key, data[..16]) + Ecb(aes, decrypting, key, data[16..])
  }

  function Aes128Encrypt(aes: BlockCipher, key: seq<byte>, plaintext: seq<byte>): (r: Result<seq<byte>, CipherError>)
    ensures r.Success? <==> |key| == 16 && |plaintext| % 16 == 0
    ensures r.Success? ==> |r.value| == |plaintext|
  {
    if |key| != 16 then Failure(InvalidKeyLength)
    else if |plaintext| % 16 != 0 then Failure(WrongFinalBlockLength)
    else Success(Ecb(aes, false, key, plaintext))
  }

  function Aes128Decrypt(aes: BlockCipher, key: seq<byte>, ciphertext: seq<byte>): (r: Result<seq<byte>, CipherError>)
    ensures r.Success? <==> |key| == 16 && |ciphertext| % 16 == 0
    ensures r.Success? ==> |r.value| == |ciphertext|
  {
    if |key| != 16 then Failure(InvalidKeyLength)
    else if |ciphertext| % 16 != 0 then Failure(WrongFinalBlockLength)
    else Success(Ecb(aes, true, key, ciphertext))
  }

  lemma {:induction false} EcbInverse(aes: BlockCipher, key: Block, data: seq<byte>)
    requires |data| % 16 == 0
    requires IsPermutation(aes)
    ensures Ecb(aes, true, key, Ecb(aes, false, key, data)) == data
    decreases |data|
  {
    if |data| > 0 {
      var e := Ecb(aes, false, key, data);
      assert e[..16] == aes.encrypt(key, data[..16]) && e[16..] == Ecb(aes, false, key, data[16..]);
      EcbInverse(aes, key, data[16..]);
    }
  }

  /** Decryption under the same key gives the plaintext back, for every input encryption accepts. */
  lemma DecryptInvertsEncrypt(aes: BlockCipher, key: seq<byte>, plaintext: seq<byte>)
    requires IsPermutation(aes)
    requires Aes128Encrypt(aes, key, plaintext).Success?
    ensures Aes128Decrypt(aes, key, Aes128Encrypt(aes, key, plaintext).value) == Success(plaintext)
  {
    EcbInverse(aes, key, plaintext);
  }

  lemma EncryptOneBlock(aes: BlockCipher, key: Block, b: Block)
    ensures Aes128Encrypt(aes, key, b) == Success(aes.encrypt(key, b))
  {
    assert b[..16] == b && b[16..] == [];
    assert Ecb(aes, false, key, b) == Cipher(aes, false, key, b) + Ecb(aes, false, key, []);
    assert Ecb(aes, false, key, b) == aes.encrypt(key, b);
    assert Aes128Encrypt(aes, key, b) == Success(Ecb(aes, false, key, b));
  }

  // ---------------------------------------------------------------------
  // Subkeys: multiplication by x in GF(2^128)

  /** `(b & 0x80) !== 0`: the top bit of a byte is set. */
  predicate TopBit(b: byte)
  {
    b >= 0x80
  }

  /** True when the top bit of the first (most significant) byte is set. */
  predicate Msb(s: seq<byte>)
  {
    s != [] && TopBit(s[0])
  }

  /**
   * `((b << 1) | carry) & 0xFF` for a carry of 0 or 1: bit 0 of `b << 1` is
   * clear, so the OR adds the carry, and the mask drops bit 8.
   */
  function ShiftByte(b: byte, carry: byte): byte
    requires carry <= 1
  {
    ((2 * b as int + carry as int) % 256) as byte
  }

  function CarryIn(s: seq<byte>): byte
  {
    if Msb(s) then 1 else 0
  }

  /** The buffer shifted left by one bit as one big-endian number; the bit shifted out of byte 0 is lost. */
  function ShiftedLeft(s: seq<byte>): (r: seq<byte>)
    ensures |r| == |s|
  {
    if s == [] then [] else [ShiftByte(s[0], CarryIn(s[1..]))] + ShiftedLeft(s[1..])
  }

  lemma ShiftByteValue(b: byte, c: byte)
    requires c <= 1
    ensures ShiftByte(b, c) as int == 2 * (b as int) - (if TopBit(b) then 256 else 0) + c as int
  {
  }

  /**
   * Shifting doubles the number the buffer spells, less 2^(8|s|) when the
   * top bit was set: the shift of the whole multi-byte value, not of each
   * byte on its own.
   */
  lemma {:induction false} ShiftedLeftValue(s: seq<byte>)
    ensures BeValue(ShiftedLeft(s)) + (if Msb(s) then Pow256(|s|) else 0) == 2 * BeValue(s)
  {
    if s != [] {
      var t := s[1..];
      ShiftedLeftValue(t);
      var m, c, h := ShiftedHead(s);
      var p := Pow256(|t|);
      var r := ShiftedLeft(s);
      assert BeValue(r) == h * p + BeValue(ShiftedLeft(t)) by {
        assert r[1..] == ShiftedLeft(t);
      }
      assert BeValue(s) == s[0] as int * p + BeValue(t);
      assert Pow256(|s|) == 256 * p;
      ShiftAlgebra(s[0] as int, m, c, h, p, BeValue(t), BeValue(ShiftedLeft(t)));
    }
  }

  /** The first byte of the shift, and the carries into and out of it, as numbers. */
  lemma ShiftedHead(s: seq<byte>) returns (m: int, c: int, h: int)
    requires s != []
    ensures m == (if Msb(s) then 1 else 0) && c == (if Msb(s[1..]) then 1 else 0)
    ensures h == ShiftedLeft(s)[0] as int
    ensures h == 2 * s[0] as int - 256 * m + c
  {
    m := if Msb(s) then 1 else 0;
    c := CarryIn(s[1..]) as int;
    ShiftByteValue(s[0], CarryIn(s[1..]));
    h := ShiftedLeft(s)[0] as int;
  }

  lemma ShiftAlgebra(b: int, m: int, c: int, h: int, p: int, v: int, w: int)
    requires h == 2 * b - 256 * m + c
    requires w + c * p == 2 * v
    ensures h * p + w + m * (256 * p) == 2 * (b * p + v)
  {
    calc {
      h * p + w + m * (256 * p);
      (2 * b - 256 * m + c) * p + w + m * (256 * p);
      { assert (2 * b - 256 * m + c) * p == 2 * b * p - 256 * m * p + c * p; }
      2 * b * p + c * p + w;
    }
  }

  /** The carry out of byte i+1 lands in bit 0 of byte i; the other bits of byte i move up by one. */
  lemma {:induction false} ShiftedLeftAt(s: seq<byte>, i: nat)
    requires i < |s|
    ensures ShiftedLeft(s)[i] == ShiftByte(s[i], CarryIn(s[i + 1..]))
  {
    if i > 0 {
      ShiftedLeftAt(s[1..], i - 1);
      assert s[1..][i - 1] == s[i] && s[1..][i..] == s[i + 1..];
    }
  }

  /** One doubling step of section 2.3 of RFC 4493: shift, then XOR 0x87 into the last byte iff the top bit was set. */
  function Double(k: Block): (r: Block)
  {
    var s := ShiftedLeft(k);
    if Msb(k) then s[15 := XorByte(s[15], 0x87)] else s
  }

  /** The constant R_128 of section 2.3 of RFC 4493: 0^120 followed by 0x87. */
  const Rb: Block := [0, 0, 0, 0, 0, 0, 0, 0, 0, 0, 0, 0, 0, 0, 0, 0x87]

  /**
   * Section 2.3 of RFC 4493 on whole blocks: doubling is the shift, XORed
   * with R_128 when the most significant bit of the input is set; the
   * code's single-byte update agrees with it.
   */
  lemma DoubleSpec(k: Block)
    ensures Double(k) == if Msb(k) then Xor(ShiftedLeft(k), Rb) else ShiftedLeft(k)
  {
    if Msb(k) {
      var s := ShiftedLeft(k);
      forall i | 0 <= i < 15
        ensures Xor(s, Rb)[i] == s[i]
      {
        XorByteZero(s[i]);
      }
    }
  }

  /** L = AES(key, 0^128); K1 = double(L); K2 = double(K1). */
  function Subkeys(aes: BlockCipher, key: Block): (Block, Block)
  {
    var k1 := Double(aes.encrypt(key, ZeroBlock));
    (k1, Double(k1))
  }

  // ---------------------------------------------------------------------
  // Padding, last-block XOR and the CBC chain

  /** `Buffer.alloc(16 - len % 16)` with byte 0 set to 0x80. */
  function PadBytes(len: nat): (r: seq<byte>)
  {
    [0x80] + Zeros(15 - len % 16)
  }

  /** The code's padding: none when the length is a multiple of 16, the empty message included. */
  function PaddedAsWritten(data: seq<byte>): (r: seq<byte>)
  {
    if |data| % 16 == 0 then data else data + PadBytes(|data|)
  }

  /** An incomplete message is itself, then 0x80, then zeros up to the next multiple of 16. */
  lemma PaddingShape(data: seq<byte>)
    requires |data| % 16 != 0
    ensures var p := PaddedAsWritten(data);
      |p| % 16 == 0 && |data| < |p| < |data| + 16 &&
      p[..|data|] == data && p[|data|] == 0x80 &&
      forall i :: |data| < i < |p| ==> p[i] == 0
  {
  }

  lemma PaddedLength(data: seq<byte>)
    ensures |PaddedAsWritten(data)| % 16 == 0
    ensures |data| == 0 <==> |PaddedAsWritten(data)| == 0
  {
  }

  /**
   * `padded.slice(-16)` XORed with the subkey in place: the view is the last
   * 16 bytes, or the whole buffer when it is shorter; writes past the end of
   * the view are dropped, as for any typed array.
   */
  function LastBlockXored(p: seq<byte>, subkey: Block): (r: seq<byte>)
    ensures |r| == |p|
  {
    var start := if |p| >= 16 then |p| - 16 else 0;
    p[..start] + Xor(p[start..], subkey[..|p| - start])
  }

  /** The CBC-MAC chain c(i+1) = AES(key, block(i) XOR c(i)); the result is the last c. */
  function CbcChain(aes: BlockCipher, key: Block, cv: Block, m: seq<byte>): Block
    requires |m| % 16 == 0
    decreases |m|
  {
    if |m| == 0 then cv
    else CbcChain(aes, key, aes.encrypt(key, Xor(m[..16], cv)), m[16..])
  }

  /** Extending the message by one block enciphers that block XOR the chain so far: c(n+1) = AES(key, block(n) XOR c(n)). */
  lemma {:induction false} CbcChainAppend(aes: BlockCipher, key: Block, cv: Block, m: seq<byte>, b: Block)
    requires |m| % 16 == 0
    ensures CbcChain(aes, key, cv, m + b) == aes.encrypt(key, Xor(b, CbcChain(aes, key, cv, m)))
    decreases |m|
  {
    if |m| == 0 {
      assert m + b == b;
      CbcChainOneBlock(aes, key, cv, b);
    } else {
      assert (m + b)[..16] == m[..16] && (m + b)[16..] == m[16..] + b;
      CbcChainAppend(aes, key, aes.encrypt(key, Xor(m[..16], cv)), m[16..], b);
    }
  }

  /** What `aesCmac` computes: padding and subkey choice decided by `|data| % 16 == 0` alone. */
  function CmacAsWritten(aes: BlockCipher, key: seq<byte>, data: seq<byte>): Result<Block, CipherError>
  {
    if |key| != 16 then Failure(InvalidKeyLength)
    else
      var k: Block := key;
      var (k1, k2) := Subkeys(aes, k);
      var complete := |data| % 16 == 0;
      var p := PaddedAsWritten(data);
      PaddedLength(data);
      Success(CbcChain(aes, k, ZeroBlock, LastBlockXored(p, if complete then k1 else k2)))
  }

  /** The last block is XORed with K1 exactly when the length is a multiple of 16, otherwise with K2. */
  lemma SubkeyChoice(aes: BlockCipher, key: Block, data: seq<byte>)
    requires |data| > 0
    ensures var (k1, k2) := Subkeys(aes, key);
      var p := PaddedAsWritten(data);
      var m := LastBlockXored(p, if |data| % 16 == 0 then k1 else k2);
      |p| >= 16 && m[..|p| - 16] == p[..|p| - 16] &&
      m[|p| - 16..] == Xor(p[|p| - 16..], if |data| % 16 == 0 then k1 else k2)
  {
  }

  /** THE DEVIATION: for the empty message the code returns sixteen zero bytes, whatever the key and the cipher. */
  lemma EmptyMessageTagIsZero(aes: BlockCipher, key: seq<byte>)
    requires |key| == 16
    ensures CmacAsWritten(aes, key, []) == Success(ZeroBlock)
  {
    var k: Block := key;
    var (k1, k2) := Subkeys(aes, k);
    assert LastBlockXored([], k1) == [];
  }

  // ---------------------------------------------------------------------
  // RFC 4493, section 2.4

  /**
   * Section 2.4 of RFC 4493: a message is complete only when it is non-empty
   * and a multiple of 16 bytes. On every non-empty message it agrees with the
   * code.
   */
  function Rfc4493Cmac(aes: BlockCipher, key: seq<byte>, data: seq<byte>): (r: Result<Block, CipherError>)
    ensures r.Success? <==> |key| == 16
    ensures |data| > 0 ==> r == CmacAsWritten(aes, key, data)
  {
    if |key| != 16 then Failure(InvalidKeyLength)
    else
      var k: Block := key;
      var (k1, k2) := Subkeys(aes, k);
      var complete := |data| > 0 && |data| % 16 == 0;
      var p := if complete then data else data + PadBytes(|data|);
      Success(CbcChain(aes, k, ZeroBlock, LastBlockXored(p, if complete then k1 else k2)))
  }

  lemma CbcChainOneBlock(aes: BlockCipher, key: Block, cv: Block, b: Block)
    ensures CbcChain(aes, key, cv, b) == aes.encrypt(key, Xor(b, cv))
  {
    assert b[..16] == b && b[16..] == [];
  }

  /** RFC 4493 pads the empty message to the block 0x80 0^120, XORs K2 into it and enciphers it once. */
  lemma Rfc4493EmptyMessage(aes: BlockCipher, key: Block)
    ensures Rfc4493Cmac(aes, key, []) == Success(aes.encrypt(key, Xor(PadBytes(0), Subkeys(aes, key).1)))
  {
    var k2 := Subkeys(aes, key).1;
    var p := PadBytes(0);
    assert [] + p == p;
    var m: Block := LastBlockXored(p, k2);
    assert m == Xor(p, k2) by {
      assert p[..0] == [] && p[0..] == p && k2[..16] == k2;
    }
    CbcChainOneBlock(aes, key, ZeroBlock, m);
    XorZeros(m);
    assert ZeroBlock == Zeros(16);
    assert Rfc4493Cmac(aes, key, []) == Success(CbcChain(aes, key, ZeroBlock, m));
  }

  /** The identity is a permutation of blocks under which the two definitions give different tags for the empty message. */
  lemma EmptyMessageDeviation()
    ensures var id := BlockCipher((k: Block, b: Block) => b, (k: Block, b: Block) => b);
      IsPermutation(id) &&
      CmacAsWritten(id, ZeroBlock, []) != Rfc4493Cmac(id, ZeroBlock, [])
  {
    var id := BlockCipher((k: Block, b: Block) => b, (k: Block, b: Block) => b);
    EmptyMessageTagIsZero(id, ZeroBlock);
    Rfc4493EmptyMessage(id, ZeroBlock);
    var k2 := Subkeys(id, ZeroBlock).1;
    DoubledHead(ZeroBlock);
    assert k2[0] == 0;
    XorByteZero(0x80);
    assert Xor(PadBytes(0), k2)[0] == 0x80;
  }

  /** A block whose first three bytes are zero doubles twice without a carry reaching byte 0. */
  lemma DoubledHead(z: Block)
    requires z[0] == 0 && z[1] == 0 && z[2] == 0
    ensures Double(Double(z))[0] == 0
  {
    ShiftedLeftAt(z, 0);
    ShiftedLeftAt(z, 1);
    assert z[1..][0] == 0 && z[2..][0] == 0;
    var k1 := Double(z);
    assert k1 == ShiftedLeft(z);
    assert k1[0] == 0 && k1[1] == 0;
    ShiftedLeftAt(k1, 0);
    assert k1[1..][0] == 0;
    assert Double(k1) == ShiftedLeft(k1);
  }

  // ---------------------------------------------------------------------
  // The code

  /** The inner `leftShift`: a copy of the buffer rewritten from the last byte to the first, carrying the top bit. */
  method LeftShift(buffer: seq<byte>) returns (result: seq<byte>)
    ensures result == ShiftedLeft(buffer)
  {
    var r := new byte[|buffer|](j requires 0 <= j < |buffer| => buffer[j]);
    var carry: byte := 0;
    var i := |buffer|;
    while i > 0
      invariant 0 <= i <= |buffer|
      invariant r[i..] == ShiftedLeft(buffer[i..])
      invariant carry == CarryIn(buffer[i..])
    {
      i := i - 1;
      var newCarry: byte := if TopBit(buffer[i]) then 1 else 0;
      r[i] := ShiftByte(buffer[i], carry);
      carry := newCarry;
      assert buffer[i..][1..] == buffer[i + 1..];
    }
    result := r[..];
  }

  /** `leftShift(b)` followed by the in-place `[15] ^= 0x87` when the top bit of `b` was set. */
  method DoubleBlock(b: Block) returns (r: Block)
    ensures r == Double(b)
  {
    r := LeftShift(b);
    if TopBit(b[0]) {
      r := r[15 := XorByte(r[15], 0x87)];
    }
  }

  /** K1 from L, and K2 from K1, by the same rule. */
  method DeriveSubkeys(l: Block) returns (k1: Block, k2: Block)
    ensures k1 == Double(l) && k2 == Double(k1)
  {
    k1 := DoubleBlock(l);
    k2 := DoubleBlock(k1);
  }

  /** The loop over `lastBlock = padded.slice(-16)`: the XOR goes through the view into `padded` itself. */
  method XorLastBlock(padded: array<byte>, subkey: Block)
    modifies padded
    ensures padded[..] == LastBlockXored(old(padded[..]), subkey)
  {
    ghost var p := padded[..];
    var start := if padded.Length >= 16 then padded.Length - 16 else 0;
    for i := 0 to 16
      invariant forall j :: 0 <= j < padded.Length ==>
        padded[j] == if start <= j < start + i then XorByte(p[j], subkey[j - start]) else p[j]
    {
      if start + i < padded.Length {
        padded[start + i] := XorByte(padded[start + i], subkey[i]);
      }
    }
  }

  /** `block[j] ^= c[j]` for the 16-byte view `block` of `a` that starts at `offset`. */
  method XorInto(a: array<byte>, offset: nat, c: Block)
    requires offset + 16 <= a.Length
    modifies a
    ensures a[..offset] == old(a[..offset]) && a[offset + 16..] == old(a[offset + 16..])
    ensures a[offset..offset + 16] == Xor(old(a[offset..offset + 16]), c)
  {
    for j := 0 to 16
      invariant forall t :: 0 <= t < a.Length && !(offset <= t < offset + j) ==> a[t] == old(a[t])
      invariant forall t :: offset <= t < offset + j ==> a[t] == XorByte(old(a[t]), c[t - offset])
    {
      a[offset + j] := XorByte(a[offset + j], c[j]);
    }
  }

  /**
   * The CBC-MAC loop: each block view of `padded` is XORed in place with `c`,
   * then enciphered into the next `c`. What is left in `padded` is not stated:
   * the buffer is the local copy of `aesCmac` and is not read again.
   */
  method CbcMac(aes: BlockCipher, key: Block, padded: array<byte>) returns (c: Block)
    requires padded.Length % 16 == 0
    modifies padded
    ensures c == CbcChain(aes, key, ZeroBlock, old(padded[..]))
  {
    ghost var m := padded[..];
    c := ZeroBlock;
    var i := 0;
    while i < padded.Length
      invariant 0 <= i <= padded.Length && i % 16 == 0 && |m| == padded.Length
      invariant padded[i..] == m[i..]
      invariant CbcChain(aes, key, c, m[i..]) == CbcChain(aes, key, ZeroBlock, m)
      decreases padded.Length - i
    {
      ghost var rest := m[i..];
      assert i + 16 <= padded.Length;
      XorInto(padded, i, c);
      var block: Block := padded[i..i + 16];
      assert block == Xor(rest[..16], c);
      EncryptOneBlock(aes, key, block);
      var e := Aes128Encrypt(aes, key, block);
      c := e.value;
      assert rest[16..] == m[i + 16..];
      i := i + 16;
    }
  }

  /** `aesCmac(key, data)`. `data` is only read: the method has no licence to modify it. */
  method AesCmac(aes: BlockCipher, key: seq<byte>, data: array<byte>) returns (tag: Result<Block, CipherError>)
    ensures tag == CmacAsWritten(aes, key, data[..])
  {
    var l := Aes128Encrypt(aes, key, ZeroBlock);
    if l.Failure? {
      return Failure(l.error);
    }
    var k: Block := key;
    EncryptOneBlock(aes, k, ZeroBlock);
    var k1, k2 := DeriveSubkeys(l.value);

    // `Buffer.from(data)`, then `Buffer.concat([padded, pad])` when incomplete
    var isComplete := data.Length % 16 == 0;
    var copy := data[..];
    if !isComplete {
      copy := copy + PadBytes(data.Length);
    }
    var padded := new byte[|copy|](j requires 0 <= j < |copy| => copy[j]);
    assert padded[..] == PaddedAsWritten(data[..]);
    PaddedLength(data[..]);

    XorLastBlock(padded, if isComplete then k1 else k2);
    var c := CbcMac(aes, k, padded);
    return Success(c);
  }
}

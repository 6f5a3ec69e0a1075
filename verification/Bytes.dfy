/** Bytes, exclusive or, big-endian 32-bit numbers, PKCS#7 padding and CBC chaining. */
module Bytes {
  type Byte = x: int | 0 <= x < 256 witness 0

  type Bytes = seq<Byte>

  const TWO32 := 0x1_0000_0000

  // -------------------------------------------------------------- exclusive or

  function Pow2(n: nat): (r: nat)
    ensures r > 0
  {
    if n == 0 then 1 else 2 * Pow2(n - 1)
  }

  function XorBits(a: nat, b: nat, n: nat): (r: nat)
    ensures r < Pow2(n)
  {
    if n == 0 then 0 else 2 * XorBits(a / 2, b / 2, n - 1) + (a + b) % 2
  }

  lemma LastBit(q: nat, bit: nat)
    requires bit < 2
    ensures (2 * q + bit) / 2 == q && (2 * q + bit) % 2 == bit
  {
  }

  /** Adding `b` twice does not change the last bit. */
  lemma LastBitBack(a: nat, b: nat)
    ensures ((a + b) % 2 + b) % 2 == a % 2
  {
    LastBit(a / 2, a % 2);
    LastBit(b / 2, b % 2);
  }

  lemma LastBitOfSum(q: nat, bit: nat, b: nat)
    ensures (2 * q + bit + b) % 2 == (bit + b) % 2
  {
    var r := (bit + b) % 2;
    LastBit((bit + b) / 2, r);
    LastBit(q + (bit + b) / 2, r);
  }

  /** The last bit is the exclusive or of the last bits, the rest that of the rests. */
  lemma XorBitsStep(a: nat, b: nat, n: nat)
    requires n > 0
    ensures XorBits(a, b, n) / 2 == XorBits(a / 2, b / 2, n - 1) && XorBits(a, b, n) % 2 == (a + b) % 2
  {
    LastBit(XorBits(a / 2, b / 2, n - 1), (a + b) % 2);
  }

  lemma SameHalves(x: nat, y: nat)
    requires x / 2 == y / 2 && x % 2 == y % 2
    ensures x == y
  {
  }

  lemma {:induction false} XorBitsCancel(a: nat, b: nat, n: nat)
    requires a < Pow2(n)
    ensures XorBits(XorBits(a, b, n), b, n) == a
  {
    if n > 0 {
      var x := XorBits(a, b, n);
      XorBitsStep(a, b, n);
      XorBitsStep(x, b, n);
      LastBitOfSum(x / 2, x % 2, b);
      LastBitBack(a, b);
      XorBitsCancel(a / 2, b / 2, n - 1);
      SameHalves(XorBits(x, b, n), a);
    }
  }

  lemma Pow2Of8()
    ensures Pow2(8) == 256
  {
    assert Pow2(4) == 16;
    assert Pow2(8) == 2 * (2 * (2 * (2 * Pow2(4))));
  }

  function Xor(a: Byte, b: Byte): Byte {
    Pow2Of8();
    XorBits(a, b, 8)
  }

  lemma XorCancel(a: Byte, b: Byte)
    ensures Xor(Xor(a, b), b) == a
  {
    Pow2Of8();
    XorBitsCancel(a, b, 8);
  }

  function XorAll(a: Bytes, b: Bytes): (r: Bytes)
    requires |a| == |b|
    ensures |r| == |a|
  {
    seq(|a|, i requires 0 <= i < |a| => Xor(a[i], b[i]))
  }

  lemma XorAllCancel(a: Bytes, b: Bytes)
    requires |a| == |b|
    ensures XorAll(XorAll(a, b), b) == a
  {
    forall i | 0 <= i < |a| {
      XorCancel(a[i], b[i]);
    }
  }

  // --------------------------------------------------------- 32-bit big endian

  /** binary.BigEndian.PutUint32 of uint32(n): higher bits are cut off. */
  function PutUint32(n: nat): (r: Bytes)
    ensures |r| == 4
  {
    [n / 0x100_0000 % 256, n / 0x1_0000 % 256, n / 0x100 % 256, n % 256]
  }

  function Uint32(b: Bytes): (n: nat)
    requires |b| == 4
    ensures n < TWO32
  {
    (b[0] as int) * 0x100_0000 + (b[1] as int) * 0x1_0000 + (b[2] as int) * 0x100 + b[3]
  }

  lemma Uint32OfPut(n: nat)
    ensures Uint32(PutUint32(n)) == n % TWO32
  {
    var q := n / 0x100;
    assert n == 0x100 * q + n % 256;
    var q2 := q / 0x100;
    assert q == 0x100 * q2 + q % 256;
    var q3 := q2 / 0x100;
    assert q2 == 0x100 * q3 + q2 % 256;
    var q4 := q3 / 0x100;
    assert q3 == 0x100 * q4 + q3 % 256;
    assert n / 0x1_0000 == q2 && n / 0x100_0000 == q3;
    assert n == TWO32 * q4 + Uint32(PutUint32(n));
  }

  // ------------------------------------------------------------------- PKCS#7

  const PAD_BLOCK := 32

  datatype Unpadded = Content(bytes: Bytes) | InvalidLength | InvalidPadding | InvalidPaddingContent

  function Repeat(b: Byte, n: nat): (r: Bytes)
    ensures |r| == n && forall i | 0 <= i < n :: r[i] == b
  {
    seq(n, _ => b)
  }

  function Pad(src: Bytes): Bytes {
    var padding := PAD_BLOCK - |src| % PAD_BLOCK;
    src + Repeat(padding, padding)
  }

  function Unpad(src: Bytes): Unpadded {
    if |src| == 0 || |src| % PAD_BLOCK != 0 then InvalidLength
    else
      var padding := src[|src| - 1];
      if padding == 0 || padding > PAD_BLOCK || padding > |src| then InvalidPadding
      else if forall i | |src| - padding <= i < |src| :: src[i] == padding then Content(src[..|src| - padding])
      else InvalidPaddingContent
  }

  lemma PadLength(n: nat)
    ensures 1 <= PAD_BLOCK - n % PAD_BLOCK <= PAD_BLOCK
    ensures (n + (PAD_BLOCK - n % PAD_BLOCK)) % PAD_BLOCK == 0
  {
    var q, r := n / PAD_BLOCK, n % PAD_BLOCK;
    assert n + (PAD_BLOCK - r) == PAD_BLOCK * (q + 1);
  }

  lemma PadUnique(len: nat, padding: nat)
    requires len % PAD_BLOCK == 0 && 1 <= padding <= PAD_BLOCK && padding <= len
    ensures PAD_BLOCK - (len - padding) % PAD_BLOCK == padding
  {
    var q := len / PAD_BLOCK;
    assert len - padding == PAD_BLOCK * (q - 1) + (PAD_BLOCK - padding);
  }

  lemma UnpadOfPad(content: Bytes)
    ensures Unpad(Pad(content)) == Content(content)
    ensures |Pad(content)| % PAD_BLOCK == 0 && |content| < |Pad(content)| <= |content| + PAD_BLOCK
  {
    PadLength(|content|);
    assert Pad(content)[..|content|] == content;
  }

  lemma PadOfUnpad(src: Bytes)
    requires Unpad(src).Content?
    ensures Pad(Unpad(src).bytes) == src
  {
    var padding, content := src[|src| - 1], Unpad(src).bytes;
    PadUnique(|src|, padding);
    assert src == content + src[|content|..];
    assert src[|content|..] == Repeat(padding, padding);
  }

  /** Unpadding succeeds exactly on padded data, and undoes the padding. */
  lemma UnpadIsInverse(src: Bytes, content: Bytes)
    ensures Unpad(src) == Content(content) <==> src == Pad(content)
  {
    UnpadOfPad(content);
    if Unpad(src).Content? {
      PadOfUnpad(src);
    }
  }

  /** pkcs7Unpad as it runs: a read-only pass over the tail. */
  method Pkcs7Unpad(src: Bytes) returns (r: Unpadded)
    ensures r == Unpad(src)
    ensures r == InvalidLength <==> |src| == 0 || |src| % 32 != 0
    ensures r == InvalidPadding <==> |src| > 0 && |src| % 32 == 0 && (src[|src| - 1] == 0 || src[|src| - 1] > 32)
  {
    if |src| == 0 || |src| % PAD_BLOCK != 0 {
      return InvalidLength;
    }
    var padding := src[|src| - 1];
    if padding == 0 || padding > PAD_BLOCK || padding > |src| {
      return InvalidPadding;
    }
    for i := |src| - padding to |src|
      invariant forall k | |src| - padding <= k < i :: src[k] == padding
    {
      if src[i] != padding {
        return InvalidPaddingContent;
      }
    }
    return Content(src[..|src| - padding]);
  }

  // ---------------------------------------------------------------------- CBC

  const BLOCK := 16

  /** A block cipher under a key; only its invertibility is used. */
  datatype BlockCipher = BlockCipher(enc: (Bytes, Bytes) -> Bytes, dec: (Bytes, Bytes) -> Bytes)

  ghost predicate Invertible(bc: BlockCipher) {
    && (forall k: Bytes, b: Bytes {:trigger bc.enc(k, b)} | |b| == BLOCK ::
          |bc.enc(k, b)| == BLOCK && bc.dec(k, bc.enc(k, b)) == b)
    && (forall k: Bytes, b: Bytes {:trigger bc.dec(k, b)} | |b| == BLOCK :: |bc.dec(k, b)| == BLOCK)
  }

  function CbcEncrypt(bc: BlockCipher, key: Bytes, prev: Bytes, plain: Bytes): (cipher: Bytes)
    requires Invertible(bc) && |prev| == BLOCK && |plain| % BLOCK == 0
    ensures |cipher| == |plain|
    decreases |plain|
  {
    if plain == [] then []
    else
      var c := bc.enc(key, XorAll(plain[..BLOCK], prev));
      c + CbcEncrypt(bc, key, c, plain[BLOCK..])
  }

  function CbcDecrypt(bc: BlockCipher, key: Bytes, prev: Bytes, cipher: Bytes): (plain: Bytes)
    requires Invertible(bc) && |prev| == BLOCK && |cipher| % BLOCK == 0
    ensures |plain| == |cipher|
    decreases |cipher|
  {
    if cipher == [] then []
    else
      XorAll(bc.dec(key, cipher[..BLOCK]), prev) + CbcDecrypt(bc, key, cipher[..BLOCK], cipher[BLOCK..])
  }

  lemma {:induction false} CbcRoundTrip(bc: BlockCipher, key: Bytes, iv: Bytes, plain: Bytes)
    requires Invertible(bc) && |iv| == BLOCK && |plain| % BLOCK == 0
    ensures CbcDecrypt(bc, key, iv, CbcEncrypt(bc, key, iv, plain)) == plain
    decreases |plain|
  {
    if plain != [] {
      var block, rest := plain[..BLOCK], plain[BLOCK..];
      var c := bc.enc(key, XorAll(block, iv));
      var tail := CbcEncrypt(bc, key, c, rest);
      assert (c + tail)[..BLOCK] == c && (c + tail)[BLOCK..] == tail;
      XorAllCancel(block, iv);
      CbcRoundTrip(bc, key, c, rest);
      assert plain == block + rest;
    }
  }
}

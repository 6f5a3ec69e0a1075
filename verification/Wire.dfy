/**
  Envelopes as they look on the wire, in numbers: the bits of an exclusive or, the blocks of a
  CBC chain (section 6.2 of NIST SP 800-38A), the digits of a length and the bytes of a padding
  (section 6.3 of RFC 5652). Nothing here refers to how `Bytes` computes them.
 */
module Wire {
  import opened Bytes

  // ---------------------------------------------------------------- the format

  /** Bit `n` of a number, bit 0 being its parity. */
  function Bit(x: nat, n: nat): nat {
    if n == 0 then x % 2 else Bit(x / 2, n - 1)
  }

  /** `c` is the exclusive or of `a` and `b`, bit by bit. */
  predicate XorOf(a: Byte, b: Byte, c: Byte) {
    forall n | 0 <= n < 8 :: Bit(c, n) == (Bit(a, n) + Bit(b, n)) % 2
  }

  predicate XorsOf(a: Bytes, b: Bytes, c: Bytes) {
    |a| == |b| == |c| && forall j | 0 <= j < |c| :: XorOf(a[j], b[j], c[j])
  }

  /** The block is the encryption of the plain block mixed with what stands before. */
  ghost predicate ChainedBlock(bc: BlockCipher, key: Bytes, plain: Bytes, prev: Bytes, cipher: Bytes) {
    exists x: Bytes :: XorsOf(plain, prev, x) && cipher == bc.enc(key, x)
  }

  /** Blocks of 16 bytes, each mixed with the cipher block before it, the first with `prev`. */
  ghost predicate Chained(bc: BlockCipher, key: Bytes, prev: Bytes, plain: Bytes, cipher: Bytes)
    decreases |plain|
  {
    if plain == [] then cipher == []
    else
      && |plain| >= 16 && |cipher| >= 16 && ChainedBlock(bc, key, plain[..16], prev, cipher[..16])
      && Chained(bc, key, cipher[..16], plain[16..], cipher[16..])
  }

  /** Four bytes that write down the number, the highest digit first. */
  predicate Digits(header: Bytes, n: nat) {
    |header| == 4
    && (header[0] as int) * 16777216 + (header[1] as int) * 65536 + (header[2] as int) * 256 + (header[3] as int) == n
  }

  /** `k` bytes of value `k`, for some `k` from 1 to 32. */
  predicate IsPadding(tail: Bytes) {
    1 <= |tail| <= 32 && forall j | 0 <= j < |tail| :: tail[j] == |tail|
  }

  /** Sixteen leading bytes, the length of the message, the message, the receiver, and padding to a multiple of 32. */
  ghost predicate Laid(padded: Bytes, lead: Bytes, message: Bytes, receiver: Bytes) {
    && |lead| == 16 && |padded| % 32 == 0
    && exists header, tail ::
         && padded == lead + header + message + receiver + tail
         && Digits(header, |message| % 4294967296) && IsPadding(tail)
  }

  /** The cipher text of an envelope under the key, whose first 16 bytes start the chain. */
  ghost predicate IsEnvelope(bc: BlockCipher, key: Bytes, lead: Bytes, message: Bytes, receiver: Bytes, cipher: Bytes) {
    |key| >= 16 && exists padded :: Laid(padded, lead, message, receiver) && Chained(bc, key, key[..16], padded, cipher)
  }

  // ---------------------------------------------------------------------- bits

  lemma {:induction false} XorBit(a: nat, b: nat, m: nat, n: nat)
    requires n < m
    ensures Bit(XorBits(a, b, m), n) == (Bit(a, n) + Bit(b, n)) % 2
    decreases n
  {
    XorBitsStep(a, b, m);
    if n == 0 {
      SumBit(a, b);
    } else {
      XorBit(a / 2, b / 2, m - 1, n - 1);
    }
  }

  lemma SumBit(a: nat, b: nat)
    ensures (a + b) % 2 == (a % 2 + b % 2) % 2
  {
    LastBit(a / 2, a % 2);
    LastBit(b / 2, b % 2);
    LastBitOfSum(a / 2 + b / 2, a % 2, b % 2);
  }

  lemma {:induction false} BitsDecide(x: nat, y: nat, m: nat)
    requires x < Pow2(m) && y < Pow2(m) && forall n | 0 <= n < m :: Bit(x, n) == Bit(y, n)
    ensures x == y
  {
    if m > 0 {
      assert Bit(x, 0) == Bit(y, 0);
      forall n | 0 <= n < m - 1
        ensures Bit(x / 2, n) == Bit(y / 2, n)
      {
        assert Bit(x, n + 1) == Bit(y, n + 1);
      }
      BitsDecide(x / 2, y / 2, m - 1);
      SameHalves(x, y);
    }
  }

  lemma XorIsXor(a: Byte, b: Byte)
    ensures XorOf(a, b, Xor(a, b))
  {
    forall n | 0 <= n < 8 {
      XorBit(a, b, 8, n);
    }
  }

  /** The eight bits decide the byte. */
  lemma XorIsUnique(a: Byte, b: Byte, c: Byte, d: Byte)
    requires XorOf(a, b, c) && XorOf(a, b, d)
    ensures c == d
  {
    Pow2Of8();
    BitsDecide(c, d, 8);
  }

  lemma XorsAre(a: Bytes, b: Bytes, c: Bytes)
    requires |a| == |b|
    ensures XorsOf(a, b, c) <==> c == XorAll(a, b)
  {
    forall j | 0 <= j < |a| {
      XorIsXor(a[j], b[j]);
    }
    if XorsOf(a, b, c) {
      forall j | 0 <= j < |a| {
        XorIsUnique(a[j], b[j], c[j], Xor(a[j], b[j]));
      }
    }
  }

  // --------------------------------------------------------------------- chain

  lemma OneBlock(bc: BlockCipher, key: Bytes, plain: Bytes, prev: Bytes, cipher: Bytes)
    requires |plain| == |prev| == 16
    ensures ChainedBlock(bc, key, plain, prev, cipher) <==> cipher == bc.enc(key, XorAll(plain, prev))
  {
    XorsAre(plain, prev, XorAll(plain, prev));
    forall x: Bytes | XorsOf(plain, prev, x) {
      XorsAre(plain, prev, x);
    }
  }

  /** What CBC encryption computes is chained, and nothing else is. */
  lemma {:induction false} ChainedIsCbc(bc: BlockCipher, key: Bytes, prev: Bytes, plain: Bytes, cipher: Bytes)
    requires Invertible(bc) && |prev| == 16 && |plain| % 16 == 0
    ensures Chained(bc, key, prev, plain, cipher) <==> cipher == CbcEncrypt(bc, key, prev, plain)
    decreases |plain|
  {
    if plain != [] {
      var block, rest := plain[..16], plain[16..];
      var c := bc.enc(key, XorAll(block, prev));
      var tail := CbcEncrypt(bc, key, c, rest);
      assert (c + tail)[..16] == c && (c + tail)[16..] == tail;
      OneBlock(bc, key, block, prev, c);
      ChainedIsCbc(bc, key, c, rest, tail);
      if Chained(bc, key, prev, plain, cipher) {
        OneBlock(bc, key, block, prev, cipher[..16]);
        ChainedIsCbc(bc, key, c, rest, cipher[16..]);
        assert cipher == cipher[..16] + cipher[16..];
      }
    }
  }

  // -------------------------------------------------------------------- layout

  lemma PadIsPadding(src: Bytes)
    ensures exists tail :: IsPadding(tail) && Pad(src) == src + tail
    ensures |Pad(src)| % 32 == 0
  {
    UnpadOfPad(src);
    var k := PAD_BLOCK - |src| % PAD_BLOCK;
    assert IsPadding(Repeat(k, k));
  }

  /** Unpadding succeeds exactly on content and padding that together fill blocks of 32. */
  lemma UnpadIs(src: Bytes, content: Bytes)
    ensures Unpad(src) == Content(content) <==>
            |src| % 32 == 0 && exists tail :: IsPadding(tail) && src == content + tail
  {
    UnpadIsInverse(src, content);
    PadIsPadding(content);
    if |src| % 32 == 0 && exists tail :: IsPadding(tail) && src == content + tail {
      var tail :| IsPadding(tail) && src == content + tail;
      PaddingIsUnique(|content|, |tail|);
      assert tail == Repeat(|tail|, |tail|);
    }
  }

  lemma PaddingIsUnique(n: nat, k: nat)
    requires 1 <= k <= 32 && (n + k) % 32 == 0
    ensures k == 32 - n % 32
  {
  }

  lemma PutIsDigits(n: nat)
    ensures Digits(PutUint32(n), n % 4294967296)
  {
    Uint32OfPut(n);
  }

  /** The padded frame is laid out as an envelope. */
  lemma FrameIsLaid(lead: Bytes, message: Bytes, receiver: Bytes)
    requires |lead| == 16
    ensures Laid(Pad(lead + PutUint32(|message|) + message + receiver), lead, message, receiver)
  {
    var frame := lead + PutUint32(|message|) + message + receiver;
    PadIsPadding(frame);
    PutIsDigits(|message|);
    var tail :| IsPadding(tail) && Pad(frame) == frame + tail;
    assert Pad(frame) == lead + PutUint32(|message|) + message + receiver + tail;
  }

  /** The length of an envelope: the least multiple of 32 above its contents. */
  lemma LaidLength(padded: Bytes, lead: Bytes, message: Bytes, receiver: Bytes)
    requires Laid(padded, lead, message, receiver)
    ensures 20 + |message| + |receiver| < |padded| <= 20 + |message| + |receiver| + 32
  {
  }
}

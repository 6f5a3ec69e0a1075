/**
  The encrypted callback envelopes of internal/gateway/wecom/crypto.go and
  internal/gateway/dingtalk/app_support.go: sixteen leading bytes, a 32-bit length, the
  message and a receiver ID, padded and chained. The two decoders differ in how they add the
  length (uint32 and int), in how they treat an empty receiver ID and in what they check first.
 */
module Envelope {
  import opened Options
  import opened Bytes
  import opened Wire

  /** What a decoder does: a message, an error, or a Go run-time panic. */
  datatype Opened = Message(bytes: Bytes) | Refused | Panics

  datatype Base64 = Base64(encode: Bytes -> string, decode: string -> Option<Bytes>)

  ghost predicate Base64Ok(b64: Base64) {
    forall x: Bytes {:trigger b64.encode(x)} :: b64.decode(b64.encode(x)) == Some(x)
  }

  /** The plaintext frame. */
  function Framed(lead: Bytes, message: Bytes, receiver: Bytes): Bytes
    requires |lead| == 16
  {
    lead + PutUint32(|message|) + message + receiver
  }

  /** The frame decoder of WeCom: the end of the message is computed in 32 bits. */
  function OpenWeCom(plain: Bytes, receiver: Bytes): Opened {
    if |plain| < 20 then Refused
    else
      var end := (20 + Uint32(plain[16..20])) % TWO32;
      if end > |plain| then Refused
      else if end < 20 then Panics  // slicing from 20 to a smaller index
      else if receiver != [] && plain[end..] != receiver then Refused
      else Message(plain[20..end])
  }

  /** The frame decoder of DingTalk: the end of the message is a Go int. */
  function OpenDingTalk(plain: Bytes, receiver: Bytes): Opened {
    if |plain| < 20 then Refused
    else
      var end := 20 + Uint32(plain[16..20]);
      if end > |plain| then Refused
      else if plain[end..] != receiver then Refused
      else Message(plain[20..end])
  }

  // ---------------------------------------------------------------- the codecs

  lemma PaddedFrame(frame: Bytes)
    ensures Unpad(Pad(frame)) == Content(frame)
    ensures |Pad(frame)| > 0 && |Pad(frame)| % BLOCK == 0
  {
    UnpadOfPad(frame);
    WholeBlocks(|Pad(frame)| / PAD_BLOCK, |Pad(frame)|);
  }

  /** A padding block is two cipher blocks. */
  lemma WholeBlocks(q: nat, n: nat)
    requires n == PAD_BLOCK * q
    ensures n % BLOCK == 0
  {
    assert n == BLOCK * (2 * q);
  }

  /** Padding and chaining, undone in the order in which both decoders undo them. */
  lemma SealedFrame(bc: BlockCipher, key: Bytes, frame: Bytes)
    requires Invertible(bc) && |key| >= BLOCK && |Pad(frame)| % BLOCK == 0
    ensures var cipher := CbcEncrypt(bc, key, key[..BLOCK], Pad(frame));
            && |cipher| > 0 && |cipher| % BLOCK == 0
            && Unpad(CbcDecrypt(bc, key, key[..BLOCK], cipher)) == Content(frame)
  {
    PaddedFrame(frame);
    CbcRoundTrip(bc, key, key[..BLOCK], Pad(frame));
  }

  /** The WeCom codec; NewCodec accepts 32-byte keys only. */
  datatype Codec = Codec(receiveID: Bytes, aesKey: Bytes, bc: BlockCipher, b64: Base64,
                         sign: (string, string, string) -> string)
  {
    ghost predicate Valid() {
      |aesKey| == 32 && Invertible(bc) && Base64Ok(b64)
    }

    function Sealed(random: Bytes, plain: Bytes): string
      requires Valid() && |random| == 16
    {
      var padded := Pad(Framed(random, plain, receiveID));
      PaddedFrame(Framed(random, plain, receiveID));
      b64.encode(CbcEncrypt(bc, aesKey, aesKey[..BLOCK], padded))
    }

    function OpenCipher(cipher: Bytes): Opened
      requires Valid()
    {
      if |cipher| == 0 || |cipher| % BLOCK != 0 then Refused
      else
        match Unpad(CbcDecrypt(bc, aesKey, aesKey[..BLOCK], cipher))
        case Content(plain) => OpenWeCom(plain, receiveID)
        case _ => Refused
    }

    method Encrypt(random: Bytes, plain: Bytes) returns (encrypted: string)
      requires Valid() && |random| == 16
      ensures encrypted == Sealed(random, plain)
      ensures b64.decode(encrypted).Some?
      ensures OpenCipher(b64.decode(encrypted).value) == Message(plain) <==> |plain| < TWO32 - 20
      ensures IsEnvelope(bc, aesKey, random, plain, receiveID, b64.decode(encrypted).value)
      ensures |b64.decode(encrypted).value| % 32 == 0
      ensures 20 + |plain| + |receiveID| < |b64.decode(encrypted).value| <= 52 + |plain| + |receiveID|
    {
      WeComRoundTrip(this, random, plain);
      SealedIsEnvelope(bc, aesKey, random, plain, receiveID);
      var buf := random;
      buf := buf + PutUint32(|plain|);
      buf := buf + plain;
      buf := buf + receiveID;
      var padded := Pad(buf);
      PaddedFrame(buf);
      var cipher := CbcEncrypt(bc, aesKey, aesKey[..BLOCK], padded);
      encrypted := b64.encode(cipher);
    }

    method Decrypt(signature: string, timestamp: string, nonce: string, encrypted: string) returns (r: Opened)
      requires Valid()
      ensures r == if signature != sign(timestamp, nonce, encrypted) || b64.decode(encrypted).None? then Refused
                   else OpenCipher(b64.decode(encrypted).value)
      ensures signature != sign(timestamp, nonce, encrypted) ==> r == Refused
      ensures signature == sign(timestamp, nonce, encrypted) && b64.decode(encrypted).Some? ==>
                forall lead, message, receiver | |message| < 4294967276
                    && IsEnvelope(bc, aesKey, lead, message, receiver, b64.decode(encrypted).value) ::
                  r == if receiveID == [] || receiver == receiveID then Message(message) else Refused
    {
      if b64.decode(encrypted).Some? {
        WeComOpensAll(this, b64.decode(encrypted).value);
      }
      if signature != sign(timestamp, nonce, encrypted) {
        return Refused;
      }
      var ciphertext := b64.decode(encrypted);
      if ciphertext.None? || |ciphertext.value| == 0 || |ciphertext.value| % BLOCK != 0 {
        return Refused;
      }
      var unpadded := Pkcs7Unpad(CbcDecrypt(bc, aesKey, aesKey[..BLOCK], ciphertext.value));
      if !unpadded.Content? {
        return Refused;
      }
      var plain := unpadded.bytes;
      if |plain| < 20 {
        return Refused;
      }
      var end := (20 + Uint32(plain[16..20])) % TWO32;
      if end > |plain| {
        return Refused;
      }
      if end < 20 {
        return Panics;
      }
      if receiveID != [] && plain[end..] != receiveID {
        return Refused;
      }
      return Message(plain[20..end]);
    }
  }

  const LEAD: Bytes := [48, 49, 50, 51, 52, 53, 54, 55, 56, 57, 97, 98, 99, 100, 101, 102]

  predicate AesKeySize(n: nat) {
    n == 16 || n == 24 || n == 32
  }

  /** encryptCallbackBody with the decoded key; None when the key size is refused. */
  function SealDingTalk(bc: BlockCipher, b64: Base64, key: Bytes, receiveKey: Bytes, body: Bytes): Option<string>
    requires Invertible(bc)
  {
    if !AesKeySize(|key|) then None
    else
      var frame := Framed(LEAD, body, receiveKey);
      PaddedFrame(frame);
      Some(b64.encode(CbcEncrypt(bc, key, key[..BLOCK], Pad(frame))))
  }

  /** decryptCallbackBody with the decoded key. */
  function DecryptDingTalk(bc: BlockCipher, b64: Base64, key: Bytes, receiveKey: Bytes, encrypt: string): Opened
    requires Invertible(bc)
  {
    var cipher := b64.decode(encrypt);
    if cipher.None? || !AesKeySize(|key|) then Refused
    else if |cipher.value| % BLOCK != 0 then Panics  // CryptBlocks insists on full blocks
    else
      match Unpad(CbcDecrypt(bc, key, key[..BLOCK], cipher.value))
      case Content(plain) => OpenDingTalk(plain, receiveKey)
      case _ => Refused
  }

  method EncryptCallbackBody(bc: BlockCipher, b64: Base64, key: Bytes, receiveKey: Bytes, body: Bytes)
    returns (encrypted: Option<string>)
    requires Invertible(bc)
    ensures encrypted == SealDingTalk(bc, b64, key, receiveKey, body)
    ensures encrypted.Some? <==> AesKeySize(|key|)
    ensures Base64Ok(b64) && encrypted.Some? ==>
              (DecryptDingTalk(bc, b64, key, receiveKey, encrypted.value) == Message(body) <==> |body| < TWO32)
    ensures encrypted.Some? <==> |key| == 16 || |key| == 24 || |key| == 32
    ensures Base64Ok(b64) && encrypted.Some? ==>
              && b64.decode(encrypted.value).Some?
              && IsEnvelope(bc, key, LEAD, body, receiveKey, b64.decode(encrypted.value).value)
              && |b64.decode(encrypted.value).value| % 32 == 0
              && 20 + |body| + |receiveKey| < |b64.decode(encrypted.value).value| <= 52 + |body| + |receiveKey|
  {
    if Base64Ok(b64) && AesKeySize(|key|) {
      DingTalkRoundTrip(bc, b64, key, receiveKey, body);
      SealedIsEnvelope(bc, key, LEAD, body, receiveKey);
    }
    var buf := LEAD;
    buf := buf + PutUint32(|body|);
    buf := buf + body;
    buf := buf + receiveKey;
    if !AesKeySize(|key|) {
      return None;
    }
    PaddedFrame(buf);
    var cipher := CbcEncrypt(bc, key, key[..BLOCK], Pad(buf));
    return Some(b64.encode(cipher));
  }

  method DecryptCallbackBody(bc: BlockCipher, b64: Base64, key: Bytes, receiveKey: Bytes, encrypt: string)
    returns (r: Opened)
    requires Invertible(bc)
    ensures r == DecryptDingTalk(bc, b64, key, receiveKey, encrypt)
    ensures b64.decode(encrypt).None? || (|key| != 16 && |key| != 24 && |key| != 32) ==> r == Refused
    ensures b64.decode(encrypt).Some? && (|key| == 16 || |key| == 24 || |key| == 32) ==>
              forall lead, message, receiver | |message| < 4294967296
                  && IsEnvelope(bc, key, lead, message, receiver, b64.decode(encrypt).value) ::
                r == if receiver == receiveKey then Message(message) else Refused
  {
    if b64.decode(encrypt).Some? && AesKeySize(|key|) {
      DingTalkOpensAll(bc, b64, key, receiveKey, encrypt, b64.decode(encrypt).value);
    }
    var cipherText := b64.decode(encrypt);
    if cipherText.None? || !AesKeySize(|key|) {
      return Refused;
    }
    if |cipherText.value| % BLOCK != 0 {
      return Panics;
    }
    var unpadded := Pkcs7Unpad(CbcDecrypt(bc, key, key[..BLOCK], cipherText.value));
    if !unpadded.Content? {
      return Refused;
    }
    var plain := unpadded.bytes;
    if |plain| < 20 {
      return Refused;
    }
    var end := 20 + Uint32(plain[16..20]);
    if end > |plain| || plain[end..] != receiveKey {
      return Refused;
    }
    return Message(plain[20..end]);
  }

  // ----------------------------------------------------------------- on the wire

  /** The least multiple of 32 above `n`. */
  predicate FillsBlocks(length: nat, n: nat) {
    n < length <= n + 32 && length % 32 == 0
  }

  /** What both encoders chain is an envelope. */
  lemma SealedIsEnvelope(bc: BlockCipher, key: Bytes, lead: Bytes, message: Bytes, receiver: Bytes)
    requires Invertible(bc) && |key| >= 16 && |lead| == 16
    ensures |Pad(Framed(lead, message, receiver))| % BLOCK == 0
    ensures var cipher := CbcEncrypt(bc, key, key[..BLOCK], Pad(Framed(lead, message, receiver)));
            IsEnvelope(bc, key, lead, message, receiver, cipher) && FillsBlocks(|cipher|, 20 + |message| + |receiver|)
  {
    var padded := Pad(Framed(lead, message, receiver));
    PaddedFrame(Framed(lead, message, receiver));
    FrameIsLaid(lead, message, receiver);
    LaidLength(padded, lead, message, receiver);
    ChainedIsCbc(bc, key, key[..16], padded, CbcEncrypt(bc, key, key[..BLOCK], padded));
  }

  /** A message with its length and what stands around it. */
  ghost predicate FrameOf(plain: Bytes, message: Bytes, tail: Bytes) {
    exists lead, header :: |lead| == 16 && Digits(header, |message|) && plain == lead + header + message + tail
  }

  lemma LaidOpens(padded: Bytes, lead: Bytes, message: Bytes, receiver: Bytes)
    requires Laid(padded, lead, message, receiver) && |message| < 4294967296
    ensures Unpad(padded).Content? && FrameOf(Unpad(padded).bytes, message, receiver)
  {
    var header, tail :| && padded == lead + header + message + receiver + tail
                        && Digits(header, |message| % 4294967296) && IsPadding(tail);
    var frame := lead + header + message + receiver;
    Wraps(|message|);
    FrameOfWhole(lead, header, message, receiver);
    UnpadIs(padded, frame);
  }

  lemma FrameOfWhole(lead: Bytes, header: Bytes, message: Bytes, tail: Bytes)
    requires |lead| == 16 && Digits(header, |message|)
    ensures FrameOf(lead + header + message + tail, message, tail)
  {
  }

  /** The length that the header can hold. */
  lemma Wraps(n: nat)
    ensures n < 4294967296 ==> n % 4294967296 == n
    ensures n >= 4294967296 ==> n % 4294967296 <= n - 4294967296
  {
  }

  lemma CutFrame(plain: Bytes, n: nat)
    requires 20 + n <= |plain| && Uint32(plain[16..20]) == n
    ensures FrameOf(plain, plain[20..20 + n], plain[20 + n..])
  {
    var lead, header, message, tail := plain[..16], plain[16..20], plain[20..20 + n], plain[20 + n..];
    assert plain[..20] == lead + header;
    assert plain[..20 + n] == plain[..20] + message;
    assert plain == plain[..20 + n] + tail;
    FrameOfWhole(lead, header, message, tail);
  }

  /** Unchaining and unpadding an envelope gives its frame back. */
  lemma EnvelopeOpens(bc: BlockCipher, key: Bytes, lead: Bytes, message: Bytes, receiver: Bytes, cipher: Bytes)
    requires Invertible(bc) && IsEnvelope(bc, key, lead, message, receiver, cipher) && |message| < 4294967296
    ensures |cipher| > 0 && |cipher| % BLOCK == 0
    ensures var frame := Unpad(CbcDecrypt(bc, key, key[..BLOCK], cipher));
            frame.Content? && FrameOf(frame.bytes, message, receiver)
  {
    var padded :| Laid(padded, lead, message, receiver) && Chained(bc, key, key[..16], padded, cipher);
    WholeBlocks(|padded| / 32, |padded|);
    LaidLength(padded, lead, message, receiver);
    ChainedIsCbc(bc, key, key[..16], padded, cipher);
    CbcRoundTrip(bc, key, key[..16], padded);
    LaidOpens(padded, lead, message, receiver);
  }

  lemma WeComOpens(c: Codec, lead: Bytes, message: Bytes, receiver: Bytes, cipher: Bytes)
    requires c.Valid() && IsEnvelope(c.bc, c.aesKey, lead, message, receiver, cipher) && |message| < 4294967276
    ensures c.OpenCipher(cipher) == if c.receiveID == [] || receiver == c.receiveID then Message(message) else Refused
  {
    EnvelopeOpens(c.bc, c.aesKey, lead, message, receiver, cipher);
    OpenWeComIs(Unpad(CbcDecrypt(c.bc, c.aesKey, c.aesKey[..BLOCK], cipher)).bytes, message, receiver, c.receiveID);
  }

  lemma OpenWeComIs(plain: Bytes, message: Bytes, tail: Bytes, receiver: Bytes)
    requires FrameOf(plain, message, tail) && |message| < 4294967276
    ensures OpenWeCom(plain, receiver) == if receiver == [] || tail == receiver then Message(message) else Refused
  {
    FrameOfParts(plain, message, tail);
    EndWraps(|message|);
  }

  lemma WeComOpensAll(c: Codec, cipher: Bytes)
    requires c.Valid()
    ensures forall lead, message, receiver | |message| < 4294967276 && IsEnvelope(c.bc, c.aesKey, lead, message, receiver, cipher) ::
              c.OpenCipher(cipher) == if c.receiveID == [] || receiver == c.receiveID then Message(message) else Refused
  {
    forall lead, message, receiver | |message| < 4294967276 && IsEnvelope(c.bc, c.aesKey, lead, message, receiver, cipher) {
      WeComOpens(c, lead, message, receiver, cipher);
    }
  }

  lemma OpenDingTalkIs(plain: Bytes, message: Bytes, tail: Bytes, receiver: Bytes)
    requires FrameOf(plain, message, tail)
    ensures OpenDingTalk(plain, receiver) == if tail == receiver then Message(message) else Refused
  {
    FrameOfParts(plain, message, tail);
  }

  lemma DingTalkOpens(bc: BlockCipher, b64: Base64, key: Bytes, receiveKey: Bytes, encrypt: string,
                      lead: Bytes, message: Bytes, receiver: Bytes, cipher: Bytes)
    requires Invertible(bc) && AesKeySize(|key|) && b64.decode(encrypt) == Some(cipher)
    requires IsEnvelope(bc, key, lead, message, receiver, cipher) && |message| < 4294967296
    ensures DecryptDingTalk(bc, b64, key, receiveKey, encrypt) == if receiver == receiveKey then Message(message) else Refused
  {
    EnvelopeOpens(bc, key, lead, message, receiver, cipher);
    OpenDingTalkIs(Unpad(CbcDecrypt(bc, key, key[..BLOCK], cipher)).bytes, message, receiver, receiveKey);
  }

  lemma DingTalkOpensAll(bc: BlockCipher, b64: Base64, key: Bytes, receiveKey: Bytes, encrypt: string, cipher: Bytes)
    requires Invertible(bc) && AesKeySize(|key|) && b64.decode(encrypt) == Some(cipher)
    ensures forall lead, message, receiver | |message| < 4294967296 && IsEnvelope(bc, key, lead, message, receiver, cipher) ::
              DecryptDingTalk(bc, b64, key, receiveKey, encrypt) == if receiver == receiveKey then Message(message) else Refused
  {
    forall lead, message, receiver | |message| < 4294967296 && IsEnvelope(bc, key, lead, message, receiver, cipher) {
      DingTalkOpens(bc, b64, key, receiveKey, encrypt, lead, message, receiver, cipher);
    }
  }

  /** Which plaintexts the WeCom decoder opens, and to what. */
  lemma WeComFrames(plain: Bytes, receiver: Bytes, message: Bytes)
    ensures OpenWeCom(plain, receiver) == Message(message) <==>
            |message| < 4294967276 && exists tail :: FrameOf(plain, message, tail) && (receiver == [] || tail == receiver)
  {
    if OpenWeCom(plain, receiver) == Message(message) {
      var n := Uint32(plain[16..20]);
      EndWraps(n);
      CutFrame(plain, n);
    }
    if |message| < 4294967276 && exists tail :: FrameOf(plain, message, tail) && (receiver == [] || tail == receiver) {
      var tail :| FrameOf(plain, message, tail) && (receiver == [] || tail == receiver);
      FrameOfParts(plain, message, tail);
      EndWraps(|message|);
    }
  }

  /** Which plaintexts the DingTalk decoder opens, and to what. */
  lemma DingTalkFrames(plain: Bytes, receiver: Bytes, message: Bytes)
    ensures OpenDingTalk(plain, receiver) == Message(message) <==> |message| < 4294967296 && FrameOf(plain, message, receiver)
  {
    if OpenDingTalk(plain, receiver) == Message(message) {
      var n := Uint32(plain[16..20]);
      CutFrame(plain, n);
    }
    if |message| < 4294967296 && FrameOf(plain, message, receiver) {
      FrameOfParts(plain, message, receiver);
    }
  }

  lemma FrameOfParts(plain: Bytes, message: Bytes, tail: Bytes)
    requires FrameOf(plain, message, tail)
    ensures |plain| == 20 + |message| + |tail| && Uint32(plain[16..20]) == |message|
    ensures plain[20..20 + |message|] == message && plain[20 + |message|..] == tail
  {
    var lead, header :| |lead| == 16 && Digits(header, |message|) && plain == lead + header + message + tail;
    assert plain[16..20] == header;
  }

  /** The fixed lead of DingTalk: the characters 0 to 9 and a to f. */
  lemma LeadIs()
    ensures |LEAD| == 16 && forall i | 0 <= i < 16 :: LEAD[i] == if i < 10 then 48 + i else 87 + i
  {
  }

  // --------------------------------------------------------------- round trips

  /** Opening a frame that was just built; `n` is the length as the header holds it. */
  lemma FrameParts(lead: Bytes, message: Bytes, receiver: Bytes)
    requires |lead| == 16
    ensures var f := Framed(lead, message, receiver);
            && |f| == 20 + |message| + |receiver|
            && Uint32(f[16..20]) == |message| % TWO32
            && f[20..20 + |message|] == message && f[20 + |message|..] == receiver
  {
    var f := Framed(lead, message, receiver);
    assert f[16..20] == PutUint32(|message|);
    Uint32OfPut(|message|);
  }

  /** The 32-bit sum is exact up to the bound and wraps below 20 above it. */
  lemma EndWraps(n: nat)
    requires n < TWO32
    ensures (20 + n) % TWO32 == if n < TWO32 - 20 then 20 + n else 20 + n - TWO32
  {
  }

  lemma WeComFrameRoundTrip(lead: Bytes, message: Bytes, receiver: Bytes)
    requires |lead| == 16
    ensures OpenWeCom(Framed(lead, message, receiver), receiver) == Message(message) <==> |message| < TWO32 - 20
  {
    FrameParts(lead, message, receiver);
    EndWraps(|message| % TWO32);
    Wraps(|message|);
  }

  lemma DingTalkFrameRoundTrip(lead: Bytes, message: Bytes, receiver: Bytes)
    requires |lead| == 16
    ensures OpenDingTalk(Framed(lead, message, receiver), receiver) == Message(message) <==> |message| < TWO32
  {
    FrameParts(lead, message, receiver);
    var f := Framed(lead, message, receiver);
    if |message| < TWO32 {
      assert |message| % TWO32 == |message|;
    } else {
      assert |message| % TWO32 < TWO32;
      TailTooLong(f, 20 + |message| % TWO32, receiver);
    }
  }

  lemma TailTooLong(f: Bytes, end: nat, receiver: Bytes)
    requires end < |f| - |receiver|
    ensures f[end..] != receiver
  {
    assert |f[end..]| == |f| - end;
  }

  /**
    WeCom envelopes: decrypting an encrypted message returns it exactly when the message is
    shorter than 2^32 - 20 bytes, for every key, receiver ID, random lead and signature.
   */
  lemma WeComRoundTrip(c: Codec, random: Bytes, plain: Bytes)
    requires c.Valid() && |random| == 16
    ensures c.b64.decode(c.Sealed(random, plain)).Some?
    ensures c.OpenCipher(c.b64.decode(c.Sealed(random, plain)).value) == Message(plain) <==> |plain| < TWO32 - 20
  {
    var frame := Framed(random, plain, c.receiveID);
    PaddedFrame(frame);
    var cipher := CbcEncrypt(c.bc, c.aesKey, c.aesKey[..BLOCK], Pad(frame));
    assert c.b64.decode(c.Sealed(random, plain)) == Some(cipher);
    SealedFrame(c.bc, c.aesKey, frame);
    assert c.OpenCipher(cipher) == OpenWeCom(frame, c.receiveID);
    WeComFrameRoundTrip(random, plain, c.receiveID);
  }

  /** DingTalk envelopes: the same with the bound 2^32. */
  lemma DingTalkRoundTrip(bc: BlockCipher, b64: Base64, key: Bytes, receiveKey: Bytes, body: Bytes)
    requires Invertible(bc) && Base64Ok(b64) && AesKeySize(|key|)
    ensures SealDingTalk(bc, b64, key, receiveKey, body).Some?
    ensures DecryptDingTalk(bc, b64, key, receiveKey, SealDingTalk(bc, b64, key, receiveKey, body).value) == Message(body)
       <==> |body| < TWO32
  {
    var frame := Framed(LEAD, body, receiveKey);
    PaddedFrame(frame);
    var cipher := CbcEncrypt(bc, key, key[..BLOCK], Pad(frame));
    var sealed := SealDingTalk(bc, b64, key, receiveKey, body).value;
    assert b64.decode(sealed) == Some(cipher);
    SealedFrame(bc, key, frame);
    assert DecryptDingTalk(bc, b64, key, receiveKey, sealed) == OpenDingTalk(frame, receiveKey);
    DingTalkFrameRoundTrip(LEAD, body, receiveKey);
  }

  /** Same message, or both an ordinary error. */
  predicate SameVerdict(a: Opened, b: Opened) {
    a == b && !a.Panics?
  }

  /**
    When the two frame decoders agree on a plaintext, for every plaintext and receiver: it is
    too short for a header, or its length field does not wrap and, if the receiver ID is
    empty, nothing follows the message.
   */
  lemma DecodersAgree(plain: Bytes, receiver: Bytes)
    ensures SameVerdict(OpenWeCom(plain, receiver), OpenDingTalk(plain, receiver)) <==>
            (|plain| >= 20 ==>
               Uint32(plain[16..20]) < TWO32 - 20 && (receiver != [] || 20 + Uint32(plain[16..20]) >= |plain|))
  {
    if |plain| >= 20 {
      var n := Uint32(plain[16..20]);
      EndWraps(n);
    }
  }
}

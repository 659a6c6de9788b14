/** inform/packet.go: the 40-byte header and the two encryption modes of an inform packet. */
module InformPacket {
  import opened Prelude
  import opened InformCrypto

  const HEADER_LEN := 40
  const FLAG_ENCRYPTED := 1
  const FLAG_ZLIB := 2
  const FLAG_SNAPPY := 4
  const FLAG_GCM := 8

  /** "TNBU". */
  const MAGIC: bytes := [0x54, 0x4e, 0x42, 0x55]

  datatype Packet = Packet(mac: bytes, payload: bytes)

  datatype DecodeError = TooShort | BadMagic | BadKey | Overrun | GcmFailed | CbcFailed | SnappyFailed | ZlibFailed

  /** flags & bit, for a single bit. */
  predicate Has(flags: nat, bit: nat)
    requires bit > 0
  {
    flags / bit % 2 == 1
  }

  /** The complete header.  The body length is written as a uint32, dropping its high bits. */
  function Header(mac: bytes, flags: nat, iv: bytes, n: nat): (h: bytes)
    requires |mac| == 6 && |iv| == 16
    ensures |h| == HEADER_LEN
  {
    MAGIC + U32(1) + mac + U16(flags) + iv + U32(1) + U32(n)
  }

  /** Where each field of the header stands, byte by byte; the numbers are big-endian. */
  lemma {:induction false} HeaderBytes(mac: bytes, flags: nat, iv: bytes, n: nat)
    requires |mac| == 6 && |iv| == 16 && flags < 0x100
    ensures var h := Header(mac, flags, iv, n);
            && h[0..4] == [0x54, 0x4e, 0x42, 0x55] && h[4..8] == [0, 0, 0, 1] && h[8..14] == mac
            && h[14..16] == [0, flags] && h[16..32] == iv && h[32..36] == [0, 0, 0, 1]
            && h[36..40] == [n / 0x100_0000 % 0x100, n / 0x1_0000 % 0x100, n / 0x100 % 0x100, n % 0x100]
  {
    hide MAGIC;
    var h := Header(mac, flags, iv, n);
    assert U32(1) == [0, 0, 0, 1] && U16(flags) == [0, flags];
    BigEndian(n);
    assert h == MAGIC + ([0, 0, 0, 1] + mac + [0, flags] + iv + [0, 0, 0, 1] + U32(n));
    HeaderParts(MAGIC, [0, 0, 0, 1], mac, [0, flags], iv, U32(n));
    assert MAGIC == [0x54, 0x4e, 0x42, 0x55] by { MagicIs(); }
  }

  lemma {:induction false} MagicIs()
    ensures MAGIC == [0x54, 0x4e, 0x42, 0x55]
  {
  }

  lemma {:induction false} HeaderParts(magic: bytes, one: bytes, mac: bytes, flags: bytes, iv: bytes, n: bytes)
    requires |magic| == |one| == |n| == 4 && |mac| == 6 && |flags| == 2 && |iv| == 16
    ensures var h := magic + (one + mac + flags + iv + one + n);
            && h[0..4] == magic && h[4..8] == one && h[8..14] == mac && h[14..16] == flags && h[16..32] == iv
            && h[32..36] == one && h[36..40] == n
  {
  }

  lemma {:induction false} BigEndian(n: nat)
    ensures U32(n) == [n / 0x100_0000 % 0x100, n / 0x1_0000 % 0x100, n / 0x100 % 0x100, n % 0x100]
  {
  }

  /** The four flags are the low bits of the flags word, in this order. */
  lemma {:induction false} FlagBitsAre(flags: nat)
    ensures Has(flags, FLAG_ENCRYPTED) <==> flags % 2 == 1
    ensures Has(flags, FLAG_ZLIB) <==> flags / 2 % 2 == 1
    ensures Has(flags, FLAG_SNAPPY) <==> flags / 4 % 2 == 1
    ensures Has(flags, FLAG_GCM) <==> flags / 8 % 2 == 1
    ensures CBC_FLAGS == 0x03 && GCM_FLAGS == 0x0b
  {
  }

  const CBC_FLAGS := FLAG_ENCRYPTED + FLAG_ZLIB
  const GCM_FLAGS := FLAG_ENCRYPTED + FLAG_ZLIB + FLAG_GCM

  function EncodeCbc(c: Crypto, p: Packet, key: bytes, iv: bytes): bytes
    requires Sound(c) && |p.mac| == 6 && |iv| == 16
  {
    var body := EncryptCBC(c, key, iv, c.deflate(p.payload));
    Header(p.mac, CBC_FLAGS, iv, |body|) + body
  }

  function EncodeGcm(c: Crypto, p: Packet, key: bytes, iv: bytes): bytes
    requires |p.mac| == 6 && |iv| == 16
  {
    var plain := c.deflate(p.payload);
    var head := Header(p.mac, GCM_FLAGS, iv, |plain| + 16);
    head + c.seal(key, iv, head, plain)
  }

  /** Encode; the initialization vector is the random one it draws. */
  method Encode(c: Crypto, p: Packet, keyHex: string, iv: bytes) returns (r: Option<bytes>)
    requires Sound(c) && |p.mac| == 6 && |iv| == 16
    ensures r == if ParseKey(keyHex).Some? then Some(EncodeCbc(c, p, ParseKey(keyHex).value, iv)) else None
  {
    var key := ParseKey(keyHex);
    if key.None? {
      return None;
    }
    var body := EncryptPadded(c, key.value, iv, c.deflate(p.payload));
    var head := BuildHeader(p.mac, CBC_FLAGS, iv, |body|);
    return Some(head + body);
  }

  method EncodeAuthenticated(c: Crypto, p: Packet, keyHex: string, iv: bytes) returns (r: Option<bytes>)
    requires |p.mac| == 6 && |iv| == 16
    ensures r == if ParseKey(keyHex).Some? then Some(EncodeGcm(c, p, ParseKey(keyHex).value, iv)) else None
  {
    var key := ParseKey(keyHex);
    if key.None? {
      return None;
    }
    var plain := c.deflate(p.payload);
    var head := BuildHeader(p.mac, GCM_FLAGS, iv, |plain| + 16);
    return Some(head + c.seal(key.value, iv, head, plain));
  }

  method BuildHeader(mac: bytes, flags: nat, iv: bytes, n: nat) returns (head: bytes)
    requires |mac| == 6 && |iv| == 16
    ensures head == Header(mac, flags, iv, n)
  {
    head := MAGIC;
    head := head + U32(1);
    head := head + mac;
    head := head + U16(flags);
    head := head + iv;
    head := head + U32(1);
    head := head + U32(n);
  }

  function Decrypt(c: Crypto, key: bytes, head: bytes, body: bytes): Result<bytes, DecodeError>
    requires Sound(c) && |head| == HEADER_LEN
  {
    var flags, iv := FromU16(head[14..16]), head[16..32];
    if !Has(flags, FLAG_ENCRYPTED) then Ok(body)
    else if Has(flags, FLAG_GCM) then
      var plain := c.open(key, iv, head, body);
      if plain.None? then Err(GcmFailed) else Ok(plain.value)
    else
      var plain := DecryptCBC(c, key, iv, body);
      if plain.None? then Err(CbcFailed) else Ok(plain.value)
  }

  function Decompress(c: Crypto, flags: nat, plain: bytes): Result<bytes, DecodeError>
  {
    if Has(flags, FLAG_SNAPPY) then
      var out := c.unsnappy(plain);
      if out.None? then Err(SnappyFailed) else Ok(out.value)
    else if Has(flags, FLAG_ZLIB) then
      var out := c.inflate(plain);
      if out.None? then Err(ZlibFailed) else Ok(out.value)
    else Ok(plain)
  }

  function DecodeWith(c: Crypto, data: bytes, key: Option<bytes>): Result<Packet, DecodeError>
    requires Sound(c)
  {
    if |data| < HEADER_LEN then Err(TooShort)
    else if data[..4] != MAGIC then Err(BadMagic)
    else if key.None? then Err(BadKey)
    else
      var n := FromU32(data[36..40]);
      if n > |data| - HEADER_LEN then Err(Overrun)
      else
        var plain := Decrypt(c, key.value, data[..HEADER_LEN], data[HEADER_LEN..HEADER_LEN + n]);
        if plain.Err? then Err(plain.error)
        else
          var out := Decompress(c, FromU16(data[14..16]), plain.value);
          if out.Err? then Err(out.error) else Ok(Packet(data[8..14], out.value))
  }

  /** The width of Go's int. */
  datatype Platform = Word32 | Word64
  {
    predicate Holds(n: int)
    {
      Word64? || n < 0x8000_0000
    }

    /** int(n) of a uint32, which wraps where int has 32 bits. */
    function FromUint32(n: nat): int
      requires n < 0x1_0000_0000
    {
      if Holds(n) then n else n - 0x1_0000_0000
    }
  }

  /** On either platform, for every slice it can hold, decoding is the same: a length that wraps is
      refused as the overrun it is. */
  method Decode(c: Crypto, data: bytes, keyHex: string, platform: Platform) returns (r: Result<Packet, DecodeError>)
    requires Sound(c) && platform.Holds(|data|)
    ensures r == DecodeWith(c, data, ParseKey(keyHex))
  {
    if |data| < HEADER_LEN {
      return Err(TooShort);
    }
    if data[..4] != MAGIC {
      return Err(BadMagic);
    }
    var key := ParseKey(keyHex);
    if key.None? {
      return Err(BadKey);
    }
    var mac := data[8..14];
    var flags := FromU16(data[14..16]);
    var iv := data[16..32];
    var n := platform.FromUint32(FromU32(data[36..40]));
    if n < 0 || n > |data| - HEADER_LEN {
      return Err(Overrun);
    }
    var body := data[HEADER_LEN..HEADER_LEN + n];
    var head := data[..HEADER_LEN];
    assert head[14..16] == data[14..16] && head[16..32] == iv;
    var plain;
    if !Has(flags, FLAG_ENCRYPTED) {
      plain := body;
    } else if Has(flags, FLAG_GCM) {
      var unsealed := c.open(key.value, iv, head, body);
      if unsealed.None? {
        return Err(GcmFailed);
      }
      plain := unsealed.value;
    } else {
      var decrypted := DecryptPadded(c, key.value, iv, body);
      if decrypted.None? {
        return Err(CbcFailed);
      }
      plain := decrypted.value;
    }
    if Has(flags, FLAG_SNAPPY) {
      var out := c.unsnappy(plain);
      if out.None? {
        return Err(SnappyFailed);
      }
      plain := out.value;
    } else if Has(flags, FLAG_ZLIB) {
      var out := c.inflate(plain);
      if out.None? {
        return Err(ZlibFailed);
      }
      plain := out.value;
    }
    return Ok(Packet(mac, plain));
  }

  // ---------------------------------------------------------------------------------------------
  // Round trips
  // ---------------------------------------------------------------------------------------------

  lemma {:induction false} ReadHeader(mac: bytes, flags: nat, iv: bytes, n: nat)
    requires |mac| == 6 && |iv| == 16 && flags < 0x1_0000 && n < 0x1_0000_0000
    ensures var h := Header(mac, flags, iv, n);
            && h[..4] == MAGIC && h[8..14] == mac && FromU16(h[14..16]) == flags && h[16..32] == iv
            && FromU32(h[36..40]) == n
  {
    var h := Header(mac, flags, iv, n);
    U16Truncates(flags);
    U32Truncates(n);
    assert h[14..16] == U16(flags) && h[36..40] == U32(n);
  }

  /** What Decode makes of a header and the body it announces. */
  function Recover(c: Crypto, key: bytes, h: bytes, body: bytes): Result<Packet, DecodeError>
    requires Sound(c) && |h| == HEADER_LEN
  {
    var plain := Decrypt(c, key, h, body);
    if plain.Err? then Err(plain.error)
    else
      var out := Decompress(c, FromU16(h[14..16]), plain.value);
      if out.Err? then Err(out.error) else Ok(Packet(h[8..14], out.value))
  }

  lemma {:induction false} DecodeSplitsPacket(c: Crypto, key: bytes, h: bytes, body: bytes, trailing: bytes)
    requires Sound(c) && |h| == HEADER_LEN && h[..4] == MAGIC && FromU32(h[36..40]) == |body|
    ensures DecodeWith(c, h + body + trailing, Some(key)) == Recover(c, key, h, body)
  {
    var data := h + body + trailing;
    assert data[..HEADER_LEN] == h && data[HEADER_LEN..HEADER_LEN + |body|] == body;
    assert data[..4] == h[..4] && data[8..14] == h[8..14] && data[14..16] == h[14..16] && data[36..40] == h[36..40];
  }

  lemma {:induction false} FlagBits()
    ensures Has(CBC_FLAGS, FLAG_ENCRYPTED) && !Has(CBC_FLAGS, FLAG_GCM) && !Has(CBC_FLAGS, FLAG_SNAPPY)
            && Has(CBC_FLAGS, FLAG_ZLIB)
    ensures Has(GCM_FLAGS, FLAG_ENCRYPTED) && Has(GCM_FLAGS, FLAG_GCM) && !Has(GCM_FLAGS, FLAG_SNAPPY)
            && Has(GCM_FLAGS, FLAG_ZLIB)
  {
  }

  /** Decoding under the same key inverts Encode, with anything appended to the packet, as long as
      the body length fits its 32-bit field. */
  lemma {:induction false} DecodeInvertsCbc(c: Crypto, p: Packet, key: bytes, iv: bytes, trailing: bytes)
    requires Sound(c) && |p.mac| == 6 && |iv| == 16
    requires |EncryptCBC(c, key, iv, c.deflate(p.payload))| < 0x1_0000_0000
    ensures DecodeWith(c, EncodeCbc(c, p, key, iv) + trailing, Some(key)) == Ok(p)
  {
    var body := EncryptCBC(c, key, iv, c.deflate(p.payload));
    ReadHeader(p.mac, CBC_FLAGS, iv, |body|);
    DecodeSplitsPacket(c, key, Header(p.mac, CBC_FLAGS, iv, |body|), body, trailing);
    FlagBits();
    DecryptCBCIff(c, key, iv, body, c.deflate(p.payload));
  }

  /** Likewise for EncodeGCM: what Decode authenticates is the whole 40-byte header it was sealed
      under. */
  lemma {:induction false} DecodeInvertsGcm(c: Crypto, p: Packet, key: bytes, iv: bytes, trailing: bytes)
    requires Sound(c) && |p.mac| == 6 && |iv| == 16
    requires |c.deflate(p.payload)| + 16 < 0x1_0000_0000
    ensures DecodeWith(c, EncodeGcm(c, p, key, iv) + trailing, Some(key)) == Ok(p)
  {
    var plain := c.deflate(p.payload);
    var h := Header(p.mac, GCM_FLAGS, iv, |plain| + 16);
    ReadHeader(p.mac, GCM_FLAGS, iv, |plain| + 16);
    DecodeSplitsPacket(c, key, h, c.seal(key, iv, h, plain), trailing);
    FlagBits();
  }

  /** A packet accepted in GCM mode carries exactly the text sealed under its own 40 header bytes:
      no header byte can change without the body being sealed again. */
  lemma {:induction false} AcceptedGcmIsSealedUnderItsHeader(c: Crypto, data: bytes, key: bytes)
    requires Sound(c) && DecodeWith(c, data, Some(key)).Ok?
    requires Has(FromU16(data[14..16]), FLAG_ENCRYPTED) && Has(FromU16(data[14..16]), FLAG_GCM)
    ensures var n := FromU32(data[36..40]);
            exists plain :: data[HEADER_LEN..HEADER_LEN + n] == c.seal(key, data[16..32], data[..HEADER_LEN], plain)
  {
    var n, h := FromU32(data[36..40]), data[..HEADER_LEN];
    assert h[14..16] == data[14..16] && h[16..32] == data[16..32];
    var unsealed := c.open(key, data[16..32], h, data[HEADER_LEN..HEADER_LEN + n]);
    assert unsealed.Some?;
  }

  /** A packet accepted in CBC mode with zlib is the encryption of something that inflates to its
      payload. */
  lemma {:induction false} AcceptedCbcIsAnEncryption(c: Crypto, data: bytes, key: bytes)
    requires Sound(c) && DecodeWith(c, data, Some(key)).Ok? && FromU16(data[14..16]) == CBC_FLAGS
    ensures var n := FromU32(data[36..40]);
            exists plain :: data[HEADER_LEN..HEADER_LEN + n] == EncryptCBC(c, key, data[16..32], plain)
                            && c.inflate(plain) == Some(DecodeWith(c, data, Some(key)).value.payload)
  {
    var n, h := FromU32(data[36..40]), data[..HEADER_LEN];
    assert h[14..16] == data[14..16] && h[16..32] == data[16..32];
    FlagBits();
    var plain := DecryptCBC(c, key, data[16..32], data[HEADER_LEN..HEADER_LEN + n]).value;
    DecryptCBCIff(c, key, data[16..32], data[HEADER_LEN..HEADER_LEN + n], plain);
  }

  /** Both encodings on the wire: the header of their mode, and the body whose length it ends with. */
  lemma {:induction false} EncodedBytes(c: Crypto, p: Packet, key: bytes, iv: bytes)
    requires Sound(c) && |p.mac| == 6 && |iv| == 16
    ensures var plain := c.deflate(p.payload);
            && EncodeCbc(c, p, key, iv)[..40] == Header(p.mac, 0x03, iv, |EncodeCbc(c, p, key, iv)| - 40)
            && EncodeCbc(c, p, key, iv)[40..] == EncryptCBC(c, key, iv, plain)
            && EncodeGcm(c, p, key, iv)[..40] == Header(p.mac, 0x0b, iv, |EncodeGcm(c, p, key, iv)| - 40)
            && EncodeGcm(c, p, key, iv)[40..] == c.seal(key, iv, EncodeGcm(c, p, key, iv)[..40], plain)
  {
    FlagBitsAre(0);
    hide Header, EncryptCBC;
  }

  lemma {:induction false} EncodedFlags(c: Crypto, p: Packet, key: bytes, iv: bytes)
    requires Sound(c) && |p.mac| == 6 && |iv| == 16
    ensures var cbc, gcm := EncodeCbc(c, p, key, iv), EncodeGcm(c, p, key, iv);
            && |cbc| >= 40 && cbc[14..16] == [0, 0x03] && |gcm| >= 40 && gcm[14..16] == [0, 0x0b]
  {
    var cbc, gcm := EncodeCbc(c, p, key, iv), EncodeGcm(c, p, key, iv);
    EncodedBytes(c, p, key, iv);
    hide EncodeCbc, EncodeGcm, Header, EncryptCBC;
    HeaderBytes(p.mac, 0x03, iv, |cbc| - 40);
    HeaderBytes(p.mac, 0x0b, iv, |gcm| - 40);
    assert cbc[..40][14..16] == cbc[14..16] && gcm[..40][14..16] == gcm[14..16];
  }

  lemma {:induction false} CbcGrowsByAtMostABlock(c: Crypto, p: Packet, key: bytes, iv: bytes)
    requires Sound(c) && |iv| == 16
    ensures |EncryptCBC(c, key, iv, c.deflate(p.payload))| <= |c.deflate(p.payload)| + 16
  {
  }

  /** Which packets are refused before decryption, and as what. */
  lemma {:induction false} RefusedIff(c: Crypto, data: bytes, key: Option<bytes>)
    requires Sound(c)
    ensures var r := DecodeWith(c, data, key);
            var named := |data| >= 40 && data[0..4] == [0x54, 0x4e, 0x42, 0x55];
            && (r == Err(TooShort) <==> |data| < 40)
            && (r == Err(BadMagic) <==> |data| >= 40 && !named)
            && (r == Err(BadKey) <==> named && key.None?)
            && (r == Err(Overrun) <==>
                  && named && key.Some?
                  && ((data[36] as int * 0x100 + data[37] as int) * 0x100 + data[38] as int) * 0x100 + data[39] as int
                     > |data| - 40)
  {
    hide Sound;
    if |data| >= 40 {
      assert data[..4] == data[0..4];
      var n := data[36..40];
      assert n[..2][0] == data[36] && n[..2][1] == data[37] && n[2..][0] == data[38] && n[2..][1] == data[39];
    }
  }
}

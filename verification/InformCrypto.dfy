/** inform/crypto.go: keys, CBC with padding, and the GCM wrappers, over abstract primitives. */
module InformCrypto {
  import opened Prelude
  import Hex

  const BLOCK := 16

  /** The primitives: one-block AES both ways, AES-GCM, zlib and snappy. */
  datatype Crypto = Crypto(
    encrypt: (bytes, bytes) -> bytes,
    decrypt: (bytes, bytes) -> bytes,
    seal: (bytes, bytes, bytes, bytes) -> bytes,
    open: (bytes, bytes, bytes, bytes) -> Option<bytes>,
    deflate: bytes -> bytes,
    inflate: bytes -> Option<bytes>,
    unsnappy: bytes -> Option<bytes>)

  /** Block encryption is a permutation of the 16-byte blocks; a sealed text opens, and nothing
      else does, under the same key, nonce and additional data; inflate undoes deflate. */
  ghost predicate Sound(c: Crypto)
  {
    && (forall key, b: bytes | |b| == BLOCK :: |c.encrypt(key, b)| == BLOCK && c.decrypt(key, c.encrypt(key, b)) == b)
    && (forall key, b: bytes | |b| == BLOCK :: |c.decrypt(key, b)| == BLOCK && c.encrypt(key, c.decrypt(key, b)) == b)
    && (forall key, iv, aad, p: bytes :: |c.seal(key, iv, aad, p)| == |p| + BLOCK)
    && (forall key, iv, aad, p: bytes :: c.open(key, iv, aad, c.seal(key, iv, aad, p)) == Some(p))
    && (forall key, iv, aad, ct: bytes :: c.open(key, iv, aad, ct).Some? ==>
          ct == c.seal(key, iv, aad, c.open(key, iv, aad, ct).value))
    && (forall p: bytes :: c.inflate(c.deflate(p)) == Some(p))
  }

  /** ParseKey. */
  function ParseKey(hexKey: string): (r: Option<bytes>)
    ensures r.Some? ==> |r.value| == 16
  {
    var b := Hex.Decode(hexKey);
    if b.Some? && |b.value| == 16 then b else None
  }

  // ---------------------------------------------------------------------------------------------
  // Bitwise exclusive or
  // ---------------------------------------------------------------------------------------------

  function XorBits(a: nat, b: nat, bits: nat): nat
  {
    if bits == 0 then 0 else (a % 2 + b % 2) % 2 + 2 * XorBits(a / 2, b / 2, bits - 1)
  }

  function Pow2(n: nat): nat
  {
    if n == 0 then 1 else 2 * Pow2(n - 1)
  }

  lemma {:induction false} XorBitsInRange(a: nat, b: nat, bits: nat)
    ensures XorBits(a, b, bits) < Pow2(bits)
  {
    if bits > 0 {
      XorBitsInRange(a / 2, b / 2, bits - 1);
    }
  }

  lemma {:induction false} BitCancels(a: nat, b: nat)
    ensures (a % 2 + (a % 2 + b % 2) % 2) % 2 == b % 2
  {
  }

  lemma {:induction false} LowBitAndRest(bit: nat, rest: nat)
    requires bit < 2
    ensures (bit + 2 * rest) % 2 == bit && (bit + 2 * rest) / 2 == rest
  {
  }

  lemma {:induction false} XorBitsCancels(a: nat, b: nat, bits: nat)
    requires b < Pow2(bits)
    ensures XorBits(a, XorBits(a, b, bits), bits) == b
  {
    if bits > 0 {
      LowBitAndRest((a % 2 + b % 2) % 2, XorBits(a / 2, b / 2, bits - 1));
      BitCancels(a, b);
      XorBitsCancels(a / 2, b / 2, bits - 1);
    }
  }

  function Xor(a: byte, b: byte): byte
  {
    XorBitsInRange(a, b, 8);
    assert Pow2(8) == 256 by { assert Pow2(4) == 16; }
    XorBits(a, b, 8)
  }

  lemma {:induction false} XorCancels(a: byte, b: byte)
    ensures Xor(a, Xor(a, b)) == b
  {
    assert Pow2(8) == 256 by { assert Pow2(4) == 16; }
    XorBitsCancels(a, b, 8);
  }

  /** Bit k of n, counted from the lowest. */
  predicate Bit(n: nat, k: nat)
  {
    if k == 0 then n % 2 == 1 else Bit(n / 2, k - 1)
  }

  lemma {:induction false} XorBitsIsBitwise(a: nat, b: nat, bits: nat, k: nat)
    requires k < bits
    ensures Bit(XorBits(a, b, bits), k) <==> Bit(a, k) != Bit(b, k)
    decreases bits
  {
    LowBitAndRest((a % 2 + b % 2) % 2, XorBits(a / 2, b / 2, bits - 1));
    if k > 0 {
      XorBitsIsBitwise(a / 2, b / 2, bits - 1, k - 1);
    }
  }

  /** Exclusive or differs from each operand exactly where the other has a bit. */
  lemma {:induction false} XorIsBitwise(a: byte, b: byte, k: nat)
    requires k < 8
    ensures Bit(Xor(a, b), k) <==> Bit(a, k) != Bit(b, k)
  {
    XorBitsIsBitwise(a, b, 8, k);
  }

  function XorBlock(a: bytes, b: bytes): (r: bytes)
    requires |a| == |b|
    ensures |r| == |a|
  {
    seq(|a|, i requires 0 <= i < |a| => Xor(a[i], b[i]))
  }

  lemma {:induction false} XorBlockCancels(a: bytes, b: bytes)
    requires |a| == |b|
    ensures XorBlock(a, XorBlock(a, b)) == b
  {
    forall i | 0 <= i < |b|
      ensures XorBlock(a, XorBlock(a, b))[i] == b[i]
    {
      XorCancels(a[i], b[i]);
    }
  }

  // ---------------------------------------------------------------------------------------------
  // Cipher block chaining, section 6.2 of NIST SP 800-38A
  // ---------------------------------------------------------------------------------------------

  function EncryptBlocks(c: Crypto, key: bytes, iv: bytes, plain: bytes): (r: bytes)
    requires Sound(c) && |iv| == BLOCK && |plain| % BLOCK == 0
    ensures |r| == |plain|
    decreases |plain|
  {
    if plain == [] then []
    else
      var block := c.encrypt(key, XorBlock(iv, plain[..BLOCK]));
      block + EncryptBlocks(c, key, block, plain[BLOCK..])
  }

  function DecryptBlocks(c: Crypto, key: bytes, iv: bytes, ct: bytes): (r: bytes)
    requires Sound(c) && |iv| == BLOCK && |ct| % BLOCK == 0
    ensures |r| == |ct|
    decreases |ct|
  {
    if ct == [] then []
    else XorBlock(iv, c.decrypt(key, ct[..BLOCK])) + DecryptBlocks(c, key, ct[..BLOCK], ct[BLOCK..])
  }

  function BlockAt(s: bytes, k: nat): bytes
    requires BLOCK * (k + 1) <= |s|
  {
    s[BLOCK * k..BLOCK * (k + 1)]
  }

  /** Each ciphertext block is the encryption of its plaintext block combined with the ciphertext block
      before it, the first one with the initialization vector. */
  lemma {:induction false} EncryptBlocksChains(c: Crypto, key: bytes, iv: bytes, plain: bytes, k: nat)
    requires Sound(c) && |iv| == BLOCK && |plain| % BLOCK == 0 && BLOCK * (k + 1) <= |plain|
    ensures var ct := EncryptBlocks(c, key, iv, plain);
            BlockAt(ct, k) == c.encrypt(key, XorBlock(if k == 0 then iv else BlockAt(ct, k - 1), BlockAt(plain, k)))
    decreases |plain|
  {
    hide Sound;
    var ct := EncryptBlocks(c, key, iv, plain);
    var block := c.encrypt(key, XorBlock(iv, plain[..BLOCK]));
    FirstBlock(c, key, iv, plain);
    if k > 0 {
      EncryptBlocksChains(c, key, block, plain[BLOCK..], k - 1);
      hide EncryptBlocks;
      BlockBehind(ct, k);
      BlockBehind(plain, k);
      if k > 1 {
        BlockBehind(ct, k - 1);
      }
    }
  }

  lemma {:induction false} FirstBlock(c: Crypto, key: bytes, iv: bytes, plain: bytes)
    requires Sound(c) && |iv| == BLOCK && |plain| % BLOCK == 0 && plain != []
    ensures var ct, block := EncryptBlocks(c, key, iv, plain), c.encrypt(key, XorBlock(iv, plain[..BLOCK]));
            && |block| == BLOCK && ct[BLOCK..] == EncryptBlocks(c, key, block, plain[BLOCK..])
            && BlockAt(ct, 0) == block == ct[..BLOCK] && BlockAt(plain, 0) == plain[..BLOCK]
  {
  }

  lemma {:induction false} BlockBehind(s: bytes, k: nat)
    requires k > 0 && BLOCK * (k + 1) <= |s|
    ensures BlockAt(s, k) == BlockAt(s[BLOCK..], k - 1)
  {
    SliceOfSlice(s, BLOCK, |s|, BLOCK * (k - 1), BLOCK);
    assert s[BLOCK..] == s[BLOCK..|s|];
  }

  lemma {:induction false} DecryptBlocksInverts(c: Crypto, key: bytes, iv: bytes, plain: bytes)
    requires Sound(c) && |iv| == BLOCK && |plain| % BLOCK == 0
    ensures DecryptBlocks(c, key, iv, EncryptBlocks(c, key, iv, plain)) == plain
    decreases |plain|
  {
    if plain != [] {
      var head := plain[..BLOCK];
      var block := c.encrypt(key, XorBlock(iv, head));
      var ct := EncryptBlocks(c, key, iv, plain);
      assert ct[..BLOCK] == block && ct[BLOCK..] == EncryptBlocks(c, key, block, plain[BLOCK..]);
      XorBlockCancels(iv, head);
      DecryptBlocksInverts(c, key, block, plain[BLOCK..]);
    }
  }

  lemma {:induction false} EncryptBlocksInverts(c: Crypto, key: bytes, iv: bytes, ct: bytes)
    requires Sound(c) && |iv| == BLOCK && |ct| % BLOCK == 0
    ensures EncryptBlocks(c, key, iv, DecryptBlocks(c, key, iv, ct)) == ct
    decreases |ct|
  {
    if ct != [] {
      var block := ct[..BLOCK];
      var head := XorBlock(iv, c.decrypt(key, block));
      var plain := DecryptBlocks(c, key, iv, ct);
      assert plain[..BLOCK] == head && plain[BLOCK..] == DecryptBlocks(c, key, block, ct[BLOCK..]);
      XorBlockCancels(iv, c.decrypt(key, block));
      EncryptBlocksInverts(c, key, block, ct[BLOCK..]);
    }
  }

  // ---------------------------------------------------------------------------------------------
  // Padding, section 6.3 of RFC 5652
  // ---------------------------------------------------------------------------------------------

  function Pad(plain: bytes): (r: bytes)
    ensures |r| % BLOCK == 0 && |r| > |plain|
  {
    var pad := BLOCK - |plain| % BLOCK;
    plain + seq(pad, _ => pad)
  }

  function Unpad(out: bytes): Option<bytes>
    requires out != []
  {
    var pad := out[|out| - 1];
    if pad == 0 || pad > BLOCK || pad > |out| then None
    else if exists i | |out| - pad <= i < |out| :: out[i] != pad then None
    else Some(out[..|out| - pad])
  }

  /** Whole blocks are accepted exactly when they are the padding of what is returned. */
  lemma {:induction false} UnpadIff(out: bytes, plain: bytes)
    requires out != [] && |out| % BLOCK == 0
    ensures Unpad(out) == Some(plain) <==> out == Pad(plain)
  {
    if Unpad(out) == Some(plain) {
      var pad := out[|out| - 1];
      assert |plain| % BLOCK == (BLOCK - pad) % BLOCK;
      assert out == plain + out[|out| - pad..];
      assert out[|out| - pad..] == seq(pad, _ => pad);
    }
    if out == Pad(plain) {
      var pad := BLOCK - |plain| % BLOCK;
      assert out[|out| - 1] == pad;
      assert out[..|plain|] == plain;
    }
  }

  /** The padding of section 6.3 of RFC 5652: at least one byte and at most a block of them, up to a
      whole number of blocks, each telling how many there are. */
  lemma {:induction false} PadIff(plain: bytes, out: bytes)
    ensures out == Pad(plain) <==>
            && plain <= out && |out| % BLOCK == 0 && 1 <= |out| - |plain| <= BLOCK
            && forall i | |plain| <= i < |out| :: out[i] == |out| - |plain|
  {
    if plain <= out && |out| % BLOCK == 0 && 1 <= |out| - |plain| <= BLOCK
       && forall i | |plain| <= i < |out| :: out[i] == |out| - |plain| {
      assert |out| == |Pad(plain)|;
    }
  }

  /** A key is exactly 32 hexadecimal digits, in either case. */
  lemma {:induction false} ParseKeyIff(hexKey: string, key: bytes)
    ensures ParseKey(hexKey) == Some(key) <==> |hexKey| == 32 && Hex.Lower(hexKey) == Hex.Encode(key)
  {
    Hex.DecodeIff(hexKey, key);
  }

  lemma {:induction false} PadIsInjective(p: bytes, q: bytes)
    requires Pad(p) == Pad(q)
    ensures p == q
  {
    UnpadIff(Pad(p), p);
    UnpadIff(Pad(q), q);
  }

  function EncryptCBC(c: Crypto, key: bytes, iv: bytes, plain: bytes): (r: bytes)
    requires Sound(c) && |iv| == BLOCK
    ensures |r| % BLOCK == 0 && r != []
  {
    EncryptBlocks(c, key, iv, Pad(plain))
  }

  function DecryptCBC(c: Crypto, key: bytes, iv: bytes, ct: bytes): Option<bytes>
    requires Sound(c) && |iv| == BLOCK
  {
    if |ct| == 0 || |ct| % BLOCK != 0 then None else Unpad(DecryptBlocks(c, key, iv, ct))
  }

  /** decryptCBC accepts exactly the ciphertexts of encryptCBC, each as the one plaintext it came
      from. */
  lemma {:induction false} DecryptCBCIff(c: Crypto, key: bytes, iv: bytes, ct: bytes, plain: bytes)
    requires Sound(c) && |iv| == BLOCK
    ensures DecryptCBC(c, key, iv, ct) == Some(plain) <==> ct == EncryptCBC(c, key, iv, plain)
  {
    if |ct| != 0 && |ct| % BLOCK == 0 {
      UnpadIff(DecryptBlocks(c, key, iv, ct), plain);
      EncryptBlocksInverts(c, key, iv, ct);
      DecryptBlocksInverts(c, key, iv, Pad(plain));
    }
  }

  /** encryptCBC. */
  method EncryptPadded(c: Crypto, key: bytes, iv: bytes, plain: bytes) returns (out: bytes)
    requires Sound(c) && |iv| == BLOCK
    ensures out == EncryptCBC(c, key, iv, plain)
  {
    var pad := BLOCK - |plain| % BLOCK;
    var padded := new byte[|plain| + pad];
    forall i | 0 <= i < |plain| {
      padded[i] := plain[i];
    }
    for i := |plain| to padded.Length
      invariant forall k | 0 <= k < |plain| :: padded[k] == plain[k]
      invariant forall k | |plain| <= k < i :: padded[k] == pad
    {
      padded[i] := pad;
    }
    assert padded[..] == Pad(plain);
    out := EncryptBlocks(c, key, iv, padded[..]);
  }

  /** decryptCBC. */
  method DecryptPadded(c: Crypto, key: bytes, iv: bytes, ct: bytes) returns (plain: Option<bytes>)
    requires Sound(c) && |iv| == BLOCK
    ensures plain == DecryptCBC(c, key, iv, ct)
  {
    if |ct| == 0 || |ct| % BLOCK != 0 {
      return None;
    }
    var out := DecryptBlocks(c, key, iv, ct);
    var pad := out[|out| - 1];
    if pad == 0 || pad > BLOCK || pad > |out| {
      return None;
    }
    for i := |out| - pad to |out|
      invariant forall k | |out| - pad <= k < i :: out[k] == pad
    {
      if out[i] != pad {
        return None;
      }
    }
    return Some(out[..|out| - pad]);
  }
}

/** SHA-1 as RFC 3174 defines it, and HMAC (RFC 2104) and PBKDF2 (RFC 2898) over it:
    the specifications the in-place code of crypto/sha1*.c and
    crypto/pbkdf2_sha1.c is proved against. */
module Sha1Spec {
  import opened Bytes
  import opened Seqs

  datatype Hash = Hash(a: bv32, b: bv32, c: bv32, d: bv32, e: bv32)

  const BLOCK := 64
  const DIGEST := 20

  type Block64 = b: seq<byte> | |b| == BLOCK witness seq(BLOCK, _ => 0)
  type Digest = d: seq<byte> | |d| == DIGEST witness seq(DIGEST, _ => 0)

  // ---- The compression function (section 6.1 of RFC 3174) ----

  function Rol1(x: bv32): bv32 { (x << 1) | (x >> 31) }
  function Rol5(x: bv32): bv32 { (x << 5) | (x >> 27) }
  function Rol30(x: bv32): bv32 { (x << 30) | (x >> 2) }

  function Choose(b: bv32, c: bv32, d: bv32): bv32 { (b & c) | (!b & d) }
  function Parity(b: bv32, c: bv32, d: bv32): bv32 { b ^ c ^ d }
  function Majority(b: bv32, c: bv32, d: bv32): bv32 { (b & c) | (b & d) | (c & d) }

  // f(t;B,C,D) and K(t) of section 5.
  function F(t: nat, b: bv32, c: bv32, d: bv32): bv32 {
    if t < 20 then Choose(b, c, d) else if t < 40 then Parity(b, c, d)
    else if t < 60 then Majority(b, c, d) else Parity(b, c, d)
  }
  function K(t: nat): bv32 {
    if t < 20 then 0x5A827999 else if t < 40 then 0x6ED9EBA1 else if t < 60 then 0x8F1BBCDC else 0xCA62C1D6
  }

  function Mix(w3: bv32, w8: bv32, w14: bv32, w16: bv32): bv32 { Rol1(w3 ^ w8 ^ w14 ^ w16) }

  // W(t)
  function Schedule(blk: Block64, t: nat): bv32 {
    if t < 16 then Pack(blk[4 * t], blk[4 * t + 1], blk[4 * t + 2], blk[4 * t + 3])
    else Mix(Schedule(blk, t - 3), Schedule(blk, t - 8), Schedule(blk, t - 14), Schedule(blk, t - 16))
  }

  // TEMP of step (d); addition is modulo 2^32.
  function Temp(a: bv32, f: bv32, e: bv32, w: bv32, k: bv32): bv32 { Rol5(a) + f + e + w + k }

  function Turn(h: Hash, f: bv32, w: bv32, k: bv32): Hash {
    Hash(Temp(h.a, f, h.e, w, k), h.a, Rol30(h.b), h.c, h.d)
  }

  function Turns(h: Hash, blk: Block64, t: nat): Hash {
    if t == 0 then h
    else
      var p := Turns(h, blk, t - 1);
      Turn(p, F(t - 1, p.b, p.c, p.d), Schedule(blk, t - 1), K(t - 1))
  }

  function Add32(x: bv32, y: bv32): bv32 { x + y }

  function Plus(h: Hash, g: Hash): Hash {
    Hash(Add32(h.a, g.a), Add32(h.b, g.b), Add32(h.c, g.c), Add32(h.d, g.d), Add32(h.e, g.e))
  }

  function Compress(h: Hash, blk: Block64): Hash { Plus(h, Turns(h, blk, 80)) }

  const INITIAL := Hash(0x67452301, 0xEFCDAB89, 0x98BADCFE, 0x10325476, 0xC3D2E1F0)

  // ---- Messages ----

  // Every whole block of s, in order.
  function Absorb(h: Hash, s: seq<byte>): Hash
    decreases |s|
  {
    if |s| < BLOCK then h else Absorb(Compress(h, s[..BLOCK]), s[BLOCK..])
  }

  // Sixty-four bits, big-endian; larger sizes wrap as the source's uint64_t does.
  function Be64(n: nat): (s: seq<byte>)
    ensures |s| == 8
  {
    Be32(n / 0x1_0000_0000) + Be32(n)
  }

  // Padding of section 4 of RFC 3174: a one bit, zeros up to 8 bytes short of a
  // block, the message size in bits.
  function Padding(size: nat): (p: seq<byte>)
    ensures |p| == 9 + (119 - size % BLOCK) % BLOCK
  {
    [0x80] + Fill((119 - size % BLOCK) % BLOCK, 0) + Be64(8 * size)
  }

  function Output(h: Hash): Digest { Unpack(h.a) + Unpack(h.b) + Unpack(h.c) + Unpack(h.d) + Unpack(h.e) }

  function Sha1(msg: seq<byte>): Digest { Output(Absorb(INITIAL, msg + Padding(|msg|))) }

  lemma PaddedSize(size: nat)
    ensures (size + |Padding(size)|) % BLOCK == 0
  {
    hide Padding;
    var t := size % BLOCK;
    assert (119 - t) % BLOCK == if t <= 55 then 55 - t else 119 - t;
  }

  // Absorbing is incremental at block boundaries.
  lemma {:induction false} AbsorbConcat(h: Hash, s: seq<byte>, t: seq<byte>)
    requires |s| % BLOCK == 0
    ensures Absorb(h, s + t) == Absorb(Absorb(h, s), t)
    decreases |s|
  {
    hide Compress;
    if s == [] {
      assert s + t == t;
    } else {
      AbsorbConcat(Compress(h, s[..BLOCK]), s[BLOCK..], t);
      assert (s + t)[..BLOCK] == s[..BLOCK];
      assert (s + t)[BLOCK..] == s[BLOCK..] + t;
    }
  }

  lemma AbsorbOne(h: Hash, blk: Block64)
    ensures Absorb(h, blk) == Compress(h, blk)
  {
    hide Compress;
    assert blk[..BLOCK] == blk && blk[BLOCK..] == [];
  }

  // ---- HMAC (section 2 of RFC 2104), for keys of at most one block ----

  type Key = k: seq<byte> | |k| <= BLOCK witness []


  function KeyPad(key: Key, v: byte): Block64 {
    seq(BLOCK, k requires 0 <= k < BLOCK => XorByte(if k < |key| then key[k] else 0, v))
  }

  function Hmac(key: Key, text: seq<byte>): Digest {
    Sha1(KeyPad(key, 0x5c) + Sha1(KeyPad(key, 0x36) + text))
  }

  // The two-stage computation of the source: the pad block first, then the rest
  // padded for the total size.
  lemma PadThenRest(pad: Block64, text: seq<byte>)
    ensures Sha1(pad + text) == Output(Absorb(Compress(INITIAL, pad), text + Padding(BLOCK + |text|)))
  {
    hide Compress, Output, Padding, Absorb, INITIAL;
    AbsorbPadded(INITIAL, pad, text);
  }

  lemma AbsorbPadded(h: Hash, pad: Block64, text: seq<byte>)
    ensures Absorb(h, pad + text + Padding(|pad + text|)) == Absorb(Compress(h, pad), text + Padding(BLOCK + |text|))
  {
    hide Compress, Padding, Absorb;
    assert |pad + text| == BLOCK + |text|;
    var p := Padding(BLOCK + |text|);
    AbsorbConcat(h, pad, text + p);
    AbsorbOne(h, pad);
    assert pad + text + p == pad + (text + p);
  }

  // ---- PBKDF2 (section 5.2 of RFC 2898) ----

  function XorDigest(s: Digest, t: Digest): Digest { seq(DIGEST, k requires 0 <= k < DIGEST => XorByte(s[k], t[k])) }

  // U_c for block index i.
  function U(pass: Key, salt: seq<byte>, i: nat, c: nat): Digest
    requires c >= 1
  {
    if c == 1 then Hmac(pass, salt + Be32(i)) else Hmac(pass, U(pass, salt, i, c - 1))
  }

  // F(P, S, c, i) = U_1 xor ... xor U_c
  function T(pass: Key, salt: seq<byte>, i: nat, c: nat): Digest
    requires c >= 1
  {
    if c == 1 then U(pass, salt, i, 1) else XorDigest(T(pass, salt, i, c - 1), U(pass, salt, i, c))
  }

  // T_1 || ... || T_n
  function Blocks(pass: Key, salt: seq<byte>, c: nat, n: nat): (s: seq<byte>)
    requires c >= 1
    ensures |s| == DIGEST * n
  {
    if n == 0 then [] else Blocks(pass, salt, c, n - 1) + T(pass, salt, n, c)
  }

  function Pbkdf2(pass: Key, salt: seq<byte>, c: nat, len: nat): (s: seq<byte>)
    requires c >= 1
    ensures |s| == len
  {
    Blocks(pass, salt, c, (len + DIGEST - 1) / DIGEST)[..len]
  }
}

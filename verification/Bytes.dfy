/** Bytes, big-endian words and the few memory idioms the sources share. */
module Bytes {
  type byte = bv8

  type Bytes6 = s: seq<byte> | |s| == 6 witness seq(6, _ => 0)
  type Bytes8 = s: seq<byte> | |s| == 8 witness seq(8, _ => 0)
  type Bytes16 = s: seq<byte> | |s| == 16 witness seq(16, _ => 0)
  type Bytes32 = s: seq<byte> | |s| == 32 witness seq(32, _ => 0)

  function XorByte(a: byte, b: byte): byte { a ^ b }

  // The W macro of crypto/aes128.c and ntohl in crypto/sha1.c: four bytes, the
  // most significant first.
  function Pack(a: byte, b: byte, c: byte, d: byte): bv32 {
    ((a as bv32) << 24) | ((b as bv32) << 16) | ((c as bv32) << 8) | (d as bv32)
  }

  function B0(w: bv32): byte { (w >> 24) as byte }
  function B1(w: bv32): byte { ((w >> 16) & 0xff) as byte }
  function B2(w: bv32): byte { ((w >> 8) & 0xff) as byte }
  function B3(w: bv32): byte { (w & 0xff) as byte }

  function Unpack(w: bv32): (s: seq<byte>)
    ensures |s| == 4
  {
    [B0(w), B1(w), B2(w), B3(w)]
  }

  lemma PackUnpack(a: byte, b: byte, c: byte, d: byte, w: bv32)
    ensures B0(Pack(a, b, c, d)) == a && B1(Pack(a, b, c, d)) == b
    ensures B2(Pack(a, b, c, d)) == c && B3(Pack(a, b, c, d)) == d
    ensures Pack(B0(w), B1(w), B2(w), B3(w)) == w
  {
  }

  // XOR of words under a name, so that proofs can hide its bits.
  function Xor(a: bv32, b: bv32): bv32 { a ^ b }

  lemma XorTwice(a: bv32, k: bv32)
    ensures Xor(Xor(a, k), k) == a
  {
  }

  // The byte of a given value, by counting: the verifier relates a byte to its value
  // much more easily than a value to its byte.
  function ToByte(n: nat): (b: byte)
    requires n < 256
    ensures b as int == n
  {
    if n == 0 then 0 else ToByte(n - 1) + 1
  }

  // htonl, in memory order: the low 32 bits of n, most significant byte first.
  function Be32(n: nat): (s: seq<byte>)
    ensures |s| == 4
  {
    [ToByte(n / 0x1000000 % 0x100), ToByte(n / 0x10000 % 0x100), ToByte(n / 0x100 % 0x100), ToByte(n % 0x100)]
  }

  // save_word (crypto/aes128.c:191-197), and one htonl store of sha1_fini.
  method StoreBig(w: bv32, out: array<byte>, at: nat)
    requires at + 4 <= out.Length
    modifies out
    ensures out[at..at + 4] == Unpack(w)
    ensures forall k :: 0 <= k < out.Length && !(at <= k < at + 4) ==> out[k] == old(out[k])
  {
    hide B0, B1, B2, B3;
    out[at], out[at + 1], out[at + 2], out[at + 3] := B0(w), B1(w), B2(w), B3(w);
  }
}

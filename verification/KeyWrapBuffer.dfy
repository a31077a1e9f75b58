/** aes128_wrap and aes128_unwrap over a caller's buffer, and unwrap_key on top of
    them (crypto/aes128_wrap.c:16-41, crypto/aes128_unwrap.c:16-41,
    wsupp_crypto.c:109-126). */
module KeyWrapBuffer {
  import opened Bytes
  import opened Aes
  import opened Aes128Context
  import opened KeyWrap
  import WsuppCrypto
  import opened Seqs

  // The count 64-bit registers that start at offset off of a buffer.
  ghost function Registers(buf: array<byte>, off: nat, count: nat): (r: seq<Word>)
    requires off + 8 * count <= buf.Length
    reads buf
    ensures |r| == count
  {
    seq(count, k requires 0 <= k < count reads buf => buf[off + 8 * k..off + 8 * k + 8])
  }

  method StoreWord(buf: array<byte>, off: nat, ghost count: nat, i: nat, w: Word)
    requires i < count && off + 8 * count <= buf.Length
    modifies buf
    ensures Registers(buf, off, count) == old(Registers(buf, off, count))[i := w]
    ensures forall k :: 0 <= k < buf.Length && !(off <= k < off + 8 * count) ==> buf[k] == old(buf[k])
  {
    var at := off + 8 * i;
    forall k | 0 <= k < 8 { buf[at + k] := w[k]; }
    forall k | 0 <= k < count
      ensures Registers(buf, off, count)[k] == old(Registers(buf, off, count))[i := w][k]
    {
      if k != i {
        assert buf[off + 8 * k..off + 8 * k + 8] == old(buf[off + 8 * k..off + 8 * k + 8]);
      } else {
        assert buf[at..at + 8] == w;
      }
    }
  }

  // memcpy of R[0] and R[i] to the two halves of B, and back.
  method LoadPair(b: array<byte>, buf: array<byte>, off: nat, ghost count: nat, i: nat)
    requires b.Length == 16 && b != buf && 0 < count && i < count && off + 8 * count <= buf.Length
    modifies b
    ensures b[..] == Pair(Registers(buf, off, count)[0], Registers(buf, off, count)[i])
  {
    forall k | 0 <= k < 8 { b[k] := buf[off + k]; }
    forall k | 0 <= k < 8 { b[8 + k] := buf[off + 8 * i + k]; }
    assert b[..8] == buf[off..off + 8];
    assert b[8..] == buf[off + 8 * i..off + 8 * i + 8];
    assert b[..] == b[..8] + b[8..];
  }

  method StorePair(b: array<byte>, buf: array<byte>, off: nat, ghost count: nat, i: nat)
    requires b.Length == 16 && b != buf && 0 < count && i < count && off + 8 * count <= buf.Length
    modifies buf
    ensures Registers(buf, off, count) == old(Registers(buf, off, count))[0 := b[..8]][i := b[8..]]
    ensures forall k :: 0 <= k < buf.Length && !(off <= k < off + 8 * count) ==> buf[k] == old(buf[k])
  {
    StoreWord(buf, off, count, 0, b[..8]);
    StoreWord(buf, off, count, i, b[8..]);
  }

  // R[0] ^= wrapmask(t)
  method MaskFirst(buf: array<byte>, off: nat, ghost count: nat, t: nat)
    requires 0 < count && off + 8 * count <= buf.Length
    modifies buf
    ensures Registers(buf, off, count)
         == old(Registers(buf, off, count))[0 := XorWord(old(Registers(buf, off, count)[0]), WrapMask(t))]
    ensures forall k :: 0 <= k < buf.Length && !(off <= k < off + 8 * count) ==> buf[k] == old(buf[k])
  {
    hide XorWord, WrapMask;
    StoreWord(buf, off, count, 0, XorWord(buf[off..off + 8], WrapMask(t)));
  }

  lemma WordsAreRegisters(buf: array<byte>, off: nat, len: nat)
    requires off + len <= buf.Length
    ensures Words(buf[off..off + len]) == Registers(buf, off, len / 8)
  {
    var s := buf[off..off + len];
    forall k | 0 <= k < len / 8
      ensures Words(s)[k] == Registers(buf, off, len / 8)[k]
    {
      SliceOfSlice(buf[..], off, off + len, 8 * k, 8 * k + 8);
    }
  }

  // Bodies of the inner loops: one block operation on R[0], R[i].
  method WrapTurn(ae: Aes128, b: array<byte>, ghost key: Bytes16,
                  buf: array<byte>, off: nat, ghost count: nat, i: nat, t: nat)
    requires ae.Valid() && ae.Keys() == ExpandKey(key) && b.Length == 16
    requires 1 <= i < count && off + 8 * count <= buf.Length
    requires b != buf
    modifies ae.S, b, buf
    ensures Registers(buf, off, count) == WrapStep(EncryptWith(key), old(Registers(buf, off, count)), i, t)
    ensures forall k :: 0 <= k < buf.Length && !(off <= k < off + 8 * count) ==> buf[k] == old(buf[k])
  {
    hide Encrypt, ExpandKey, WrapMask, XorWord, Pair;
    LoadPair(b, buf, off, count, i);
    ae.EncryptInPlace(b);
    StorePair(b, buf, off, count, i);
    MaskFirst(buf, off, count, t);
  }

  method UnwrapTurn(ae: Aes128, b: array<byte>, ghost key: Bytes16,
                    buf: array<byte>, off: nat, ghost count: nat, i: nat, t: nat)
    requires ae.Valid() && ae.Keys() == ExpandKey(key) && b.Length == 16
    requires 1 <= i < count && off + 8 * count <= buf.Length
    requires b != buf
    modifies ae.S, b, buf
    ensures Registers(buf, off, count) == UnwrapStep(DecryptWith(key), old(Registers(buf, off, count)), i, t)
    ensures forall k :: 0 <= k < buf.Length && !(off <= k < off + 8 * count) ==> buf[k] == old(buf[k])
  {
    hide Decrypt, ExpandKey, WrapMask, XorWord, Pair;
    MaskFirst(buf, off, count, t);
    LoadPair(b, buf, off, count, i);
    ae.DecryptInPlace(b);
    StorePair(b, buf, off, count, i);
  }

  // The inner loops.
  method WrapRoundInPlace(ae: Aes128, b: array<byte>, ghost key: Bytes16,
                          buf: array<byte>, off: nat, count: nat, j: nat)
    requires ae.Valid() && ae.Keys() == ExpandKey(key) && b.Length == 16
    requires 1 <= count && off + 8 * count <= buf.Length
    requires b != buf
    modifies ae.S, b, buf
    ensures Registers(buf, off, count) == WrapRound(EncryptWith(key), old(Registers(buf, off, count)), j, count - 1)
    ensures forall k :: 0 <= k < buf.Length && !(off <= k < off + 8 * count) ==> buf[k] == old(buf[k])
  {
    hide EncryptWith, WrapStep, ExpandKey, StepNumber;
    for i := 1 to count
      invariant Registers(buf, off, count) == WrapRound(EncryptWith(key), old(Registers(buf, off, count)), j, i - 1)
      invariant forall k :: 0 <= k < buf.Length && !(off <= k < off + 8 * count) ==> buf[k] == old(buf[k])
    {
      WrapTurn(ae, b, key, buf, off, count, i, StepNumber(count - 1, j, i));
    }
  }

  method UnwrapRoundInPlace(ae: Aes128, b: array<byte>, ghost key: Bytes16,
                            buf: array<byte>, off: nat, count: nat, j: nat)
    requires ae.Valid() && ae.Keys() == ExpandKey(key) && b.Length == 16
    requires 1 <= count && off + 8 * count <= buf.Length
    requires b != buf
    modifies ae.S, b, buf
    ensures Registers(buf, off, count) == UnwrapRound(DecryptWith(key), old(Registers(buf, off, count)), j, count - 1)
    ensures forall k :: 0 <= k < buf.Length && !(off <= k < off + 8 * count) ==> buf[k] == old(buf[k])
  {
    hide DecryptWith, UnwrapStep, ExpandKey, StepNumber;
    ghost var goal := UnwrapRound(DecryptWith(key), Registers(buf, off, count), j, count - 1);
    for i := count downto 1
      invariant UnwrapRound(DecryptWith(key), Registers(buf, off, count), j, i - 1) == goal
      invariant forall k :: 0 <= k < buf.Length && !(off <= k < off + 8 * count) ==> buf[k] == old(buf[k])
    {
      UnwrapTurn(ae, b, key, buf, off, count, i, StepNumber(count - 1, j, i));
    }
  }

  // aes128_wrap; the source's n is count - 1, and -1 when no whole register fits.
  method WrapInPlace(key: Bytes16, buf: array<byte>, off: nat, len: nat)
    requires off + len <= buf.Length
    modifies buf
    ensures buf[off..off + len] == WrapBytes(key, old(buf[off..off + len]))
    ensures forall k :: 0 <= k < buf.Length && !(off <= k < off + len) ==> buf[k] == old(buf[k])
  {
    hide EncryptWith, WrapRound, ExpandKey, Rest, Flat, Words;
    var count := len / 8;
    WordsAreRegisters(buf, off, len);
    var ae := new Aes128();
    var b := new byte[16];
    ae.Init(key);
    if count > 0 {
      for j := 0 to 6
        invariant ae.Keys() == ExpandKey(key)
        invariant Registers(buf, off, count) == WrapRounds(EncryptWith(key), old(Registers(buf, off, count)), j)
        invariant forall k :: 0 <= k < buf.Length && !(off <= k < off + 8 * count) ==> buf[k] == old(buf[k])
      {
        WrapRoundInPlace(ae, b, key, buf, off, count, j);
      }
    }
    ae.Fini();
    WordsAreRegisters(buf, off, len);
    RestKept(buf[off..off + len], old(buf[off..off + len]));
    FlatOfWords(buf[off..off + len]);
  }

  // aes128_unwrap
  method UnwrapInPlace(key: Bytes16, buf: array<byte>, off: nat, len: nat)
    requires off + len <= buf.Length
    modifies buf
    ensures buf[off..off + len] == UnwrapBytes(key, old(buf[off..off + len]))
    ensures forall k :: 0 <= k < buf.Length && !(off <= k < off + len) ==> buf[k] == old(buf[k])
  {
    hide DecryptWith, UnwrapRound, ExpandKey, Rest, Flat, Words;
    var count := len / 8;
    WordsAreRegisters(buf, off, len);
    var ae := new Aes128();
    var b := new byte[16];
    ae.Init(key);
    if count > 0 {
      ghost var goal := UnwrapRounds(DecryptWith(key), Registers(buf, off, count), 6);
      for j := 6 downto 0
        invariant ae.Keys() == ExpandKey(key)
        invariant UnwrapRounds(DecryptWith(key), Registers(buf, off, count), j) == goal
        invariant forall k :: 0 <= k < buf.Length && !(off <= k < off + 8 * count) ==> buf[k] == old(buf[k])
      {
        UnwrapRoundInPlace(ae, b, key, buf, off, count, j);
      }
    }
    ae.Fini();
    WordsAreRegisters(buf, off, len);
    RestKept(buf[off..off + len], old(buf[off..off + len]));
    FlatOfWords(buf[off..off + len]);
  }

  lemma RestKept(s: seq<byte>, t: seq<byte>)
    requires |s| == |t| && forall k :: |s| / 8 * 8 <= k < |s| ==> s[k] == t[k]
    ensures Rest(s) == Rest(t)
  {
  }

  // ---- unwrap_key ----

  const CHECK_BLOCK: Word := [0xa6, 0xa6, 0xa6, 0xa6, 0xa6, 0xa6, 0xa6, 0xa6]

  predicate UnwrapLength(len: nat) { len % 8 == 0 && len >= 16 }

  // unwrap_key (wsupp_crypto.c:118-126)
  method UnwrapKey(kek: Bytes16, buf: array<byte>, off: nat, len: nat) returns (ok: bool)
    requires off + len <= buf.Length
    modifies buf
    ensures !UnwrapLength(len) ==> !ok && buf[..] == old(buf[..])
    ensures UnwrapLength(len) ==> buf[off..off + len] == UnwrapBytes(kek, old(buf[off..off + len]))
    ensures UnwrapLength(len) ==> (ok <==> buf[off..off + 8] == CHECK_BLOCK)
    ensures UnwrapLength(len) ==>
              (ok <==> old(buf[off..off + len]) == WrapBytes(kek, CHECK_BLOCK + buf[off + 8..off + len]))
    ensures forall k :: 0 <= k < buf.Length && !(off <= k < off + len) ==> buf[k] == old(buf[k])
  {
    hide WrapBytes, UnwrapBytes;
    if len % 8 != 0 || len < 16 { return false; }
    ghost var was := buf[off..off + len];
    UnwrapInPlace(kek, buf, off, len);
    var ret := WsuppCrypto.CompareBytes(buf, off, CHECK_BLOCK);
    assert buf[off..off + len] == buf[off..off + 8] + buf[off + 8..off + len];
    UnwrapAccepts(kek, was);
    ok := ret == 0;
  }

  // The check block appears exactly when the input is the wrap of that block
  // followed by what unwrapping leaves behind it.
  lemma UnwrapAccepts(kek: Bytes16, s: seq<byte>)
    requires |s| >= 8
    ensures UnwrapBytes(kek, s)[..8] == CHECK_BLOCK
       <==> s == WrapBytes(kek, CHECK_BLOCK + UnwrapBytes(kek, s)[8..])
  {
    hide WrapBytes, UnwrapBytes;
    var u := UnwrapBytes(kek, s);
    WrapUnwrapInverse(kek, s);
    WrapUnwrapInverse(kek, CHECK_BLOCK + u[8..]);
    assert u == u[..8] + u[8..];
    assert (CHECK_BLOCK + u[8..])[..8] == CHECK_BLOCK;
  }
}

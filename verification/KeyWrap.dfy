/** The AES key wrap of RFC 3394 as crypto/aes128_wrap.c and crypto/aes128_unwrap.c
    run it in place, proved to be inverse to one another first for any permutation
    pair of the 16-byte blocks, then for AES-128. */
module KeyWrap {
  import opened Bytes
  import opened Aes

  // One 64-bit register R[i], as the bytes it holds in memory.
  type Word = Bytes8

  type BlockMap = Bytes16 -> Bytes16

  ghost predicate Inverses(enc: BlockMap, dec: BlockMap) {
    forall b: Bytes16 :: dec(enc(b)) == b && enc(dec(b)) == b
  }

  // htonl in the high half of a little-endian 64-bit word: the step number, cut to
  // 32 bits, big-endian in the last four bytes (crypto/aes128_wrap.c:7-14).
  function WrapMask(t: nat): Word { [0, 0, 0, 0] + Be32(t) }

  function XorWord(a: Word, m: Word): Word { seq(8, k requires 0 <= k < 8 => XorByte(a[k], m[k])) }

  // The register pair a block operation works on.
  function Pair(a: Word, b: Word): Bytes16 { a + b }

  // ---- The specification over registers (section 2.2 of RFC 3394) ----

  function WrapStep(enc: BlockMap, r: seq<Word>, i: nat, t: nat): (r': seq<Word>)
    requires 1 <= i < |r|
    ensures |r'| == |r|
  {
    var b := enc(Pair(r[0], r[i]));
    r[0 := XorWord(b[..8], WrapMask(t))][i := b[8..]]
  }

  function UnwrapStep(dec: BlockMap, r: seq<Word>, i: nat, t: nat): (r': seq<Word>)
    requires 1 <= i < |r|
    ensures |r'| == |r|
  {
    var b := dec(Pair(XorWord(r[0], WrapMask(t)), r[i]));
    r[0 := b[..8]][i := b[8..]]
  }

  // The step number the standard calls t.
  function StepNumber(n: nat, j: nat, i: nat): nat { n * j + i }

  // Steps 1..i of round j.
  function WrapRound(enc: BlockMap, r: seq<Word>, j: nat, i: nat): (r': seq<Word>)
    requires i < |r|
    ensures |r'| == |r|
  {
    if i == 0 then r else WrapStep(enc, WrapRound(enc, r, j, i - 1), i, StepNumber(|r| - 1, j, i))
  }

  // Steps i..1 of round j undone.
  function UnwrapRound(dec: BlockMap, r: seq<Word>, j: nat, i: nat): (r': seq<Word>)
    requires i < |r|
    ensures |r'| == |r|
    decreases i
  {
    if i == 0 then r else UnwrapRound(dec, UnwrapStep(dec, r, i, StepNumber(|r| - 1, j, i)), j, i - 1)
  }

  function WrapRounds(enc: BlockMap, r: seq<Word>, rounds: nat): (r': seq<Word>)
    requires |r| > 0
    ensures |r'| == |r|
  {
    if rounds == 0 then r else WrapRound(enc, WrapRounds(enc, r, rounds - 1), rounds - 1, |r| - 1)
  }

  function UnwrapRounds(dec: BlockMap, r: seq<Word>, rounds: nat): (r': seq<Word>)
    requires |r| > 0
    ensures |r'| == |r|
    decreases rounds
  {
    if rounds == 0 then r else UnwrapRounds(dec, UnwrapRound(dec, r, rounds - 1, |r| - 1), rounds - 1)
  }

  // With no register at all n is -1 and both loops are empty.
  function Wrap(enc: BlockMap, r: seq<Word>): (r': seq<Word>)
    ensures |r'| == |r|
  {
    if r == [] then r else WrapRounds(enc, r, 6)
  }

  function Unwrap(dec: BlockMap, r: seq<Word>): (r': seq<Word>)
    ensures |r'| == |r|
  {
    if r == [] then r else UnwrapRounds(dec, r, 6)
  }

  // ---- Inverses, for any permutation pair ----

  lemma XorByteTwice(a: byte, b: byte)
    ensures XorByte(XorByte(a, b), b) == a
  {
  }

  lemma XorWordTwice(a: Word, m: Word)
    ensures XorWord(XorWord(a, m), m) == a
  {
    hide XorByte;
    forall k | 0 <= k < 8
      ensures XorWord(XorWord(a, m), m)[k] == a[k]
    {
      XorByteTwice(a[k], m[k]);
    }
  }

  lemma StepInverse(enc: BlockMap, dec: BlockMap, r: seq<Word>, i: nat, t: nat)
    requires Inverses(enc, dec) && 1 <= i < |r|
    ensures UnwrapStep(dec, WrapStep(enc, r, i, t), i, t) == r
    ensures WrapStep(enc, UnwrapStep(dec, r, i, t), i, t) == r
  {
    hide XorWord, WrapMask;
    var m := WrapMask(t);
    var b := enc(Pair(r[0], r[i]));
    XorWordTwice(b[..8], m);
    assert Pair(b[..8], b[8..]) == b;
    assert Pair(r[0], r[i])[..8] == r[0] && Pair(r[0], r[i])[8..] == r[i];
    var x := XorWord(r[0], m);
    var d := dec(Pair(x, r[i]));
    XorWordTwice(r[0], m);
    assert Pair(d[..8], d[8..]) == d;
    assert Pair(x, r[i])[..8] == x && Pair(x, r[i])[8..] == r[i];
  }

  lemma {:induction false} RoundInverse(enc: BlockMap, dec: BlockMap, r: seq<Word>, j: nat, i: nat)
    requires Inverses(enc, dec) && i < |r|
    ensures UnwrapRound(dec, WrapRound(enc, r, j, i), j, i) == r
    ensures WrapRound(enc, UnwrapRound(dec, r, j, i), j, i) == r
    decreases i
  {
    hide WrapStep, UnwrapStep;
    if i > 0 {
      var t := StepNumber(|r| - 1, j, i);
      RoundInverse(enc, dec, r, j, i - 1);
      StepInverse(enc, dec, WrapRound(enc, r, j, i - 1), i, t);
      RoundInverse(enc, dec, UnwrapStep(dec, r, i, t), j, i - 1);
      StepInverse(enc, dec, r, i, t);
    }
  }

  lemma {:induction false} RoundsInverse(enc: BlockMap, dec: BlockMap, r: seq<Word>, rounds: nat)
    requires Inverses(enc, dec) && |r| > 0
    ensures UnwrapRounds(dec, WrapRounds(enc, r, rounds), rounds) == r
    ensures WrapRounds(enc, UnwrapRounds(dec, r, rounds), rounds) == r
    decreases rounds
  {
    hide WrapRound, UnwrapRound;
    if rounds > 0 {
      RoundsInverse(enc, dec, r, rounds - 1);
      RoundInverse(enc, dec, WrapRounds(enc, r, rounds - 1), rounds - 1, |r| - 1);
      RoundsInverse(enc, dec, UnwrapRound(dec, r, rounds - 1, |r| - 1), rounds - 1);
      RoundInverse(enc, dec, r, rounds - 1, |r| - 1);
    }
  }

  lemma WrapInverse(enc: BlockMap, dec: BlockMap, r: seq<Word>)
    requires Inverses(enc, dec)
    ensures Unwrap(dec, Wrap(enc, r)) == r
    ensures Wrap(enc, Unwrap(dec, r)) == r
  {
    hide WrapRounds, UnwrapRounds;
    if r != [] {
      RoundsInverse(enc, dec, r, 6);
    }
  }

  // ---- Registers as bytes ----

  // The whole words of a buffer; up to seven bytes at its end are never touched.
  function Words(s: seq<byte>): (r: seq<Word>)
    ensures |r| == |s| / 8
  {
    seq(|s| / 8, k requires 0 <= k < |s| / 8 => s[8 * k..8 * k + 8])
  }

  function Rest(s: seq<byte>): seq<byte> { s[|s| / 8 * 8..] }

  function Flat(r: seq<Word>): (s: seq<byte>)
    ensures |s| == 8 * |r|
  {
    if r == [] then [] else Flat(r[..|r| - 1]) + r[|r| - 1]
  }

  lemma {:induction false} FlatAt(r: seq<Word>, k: nat)
    requires k < |r|
    ensures Flat(r)[8 * k..8 * k + 8] == r[k]
  {
    var last := |r| - 1;
    if k < last {
      FlatAt(r[..last], k);
      assert Flat(r)[8 * k..8 * k + 8] == Flat(r[..last])[8 * k..8 * k + 8];
    }
  }

  lemma WordsOfFlat(r: seq<Word>, rest: seq<byte>)
    requires |rest| < 8
    ensures Words(Flat(r) + rest) == r && Rest(Flat(r) + rest) == rest
  {
    var s := Flat(r) + rest;
    assert |s| / 8 == |r|;
    forall k | 0 <= k < |r|
      ensures Words(s)[k] == r[k]
    {
      FlatAt(r, k);
      assert s[8 * k..8 * k + 8] == Flat(r)[8 * k..8 * k + 8];
    }
  }

  lemma {:induction false} FlatOfWords(s: seq<byte>)
    ensures Flat(Words(s)) + Rest(s) == s
    decreases |s|
  {
    var n := |s| / 8;
    if n > 0 {
      var t := s[..8 * (n - 1)];
      FlatOfWords(t);
      assert |Words(t)| == n - 1;
      assert forall k :: 0 <= k < n - 1 ==> Words(t)[k] == s[8 * k..8 * k + 8];
      assert Words(t) == Words(s)[..n - 1];
      assert Rest(t) == [];
      assert Flat(Words(s)) == t + s[8 * (n - 1)..8 * n];
    }
  }

  function EncryptWith(key: Bytes16): BlockMap { (b: Bytes16) => Encrypt(ExpandKey(key), b) }
  function DecryptWith(key: Bytes16): BlockMap { (b: Bytes16) => Decrypt(ExpandKey(key), b) }

  lemma AesInverses(key: Bytes16)
    ensures Inverses(EncryptWith(key), DecryptWith(key))
  {
    hide Encrypt, Decrypt, ExpandKey;
    forall b: Bytes16
      ensures DecryptWith(key)(EncryptWith(key)(b)) == b && EncryptWith(key)(DecryptWith(key)(b)) == b
    {
      DecryptEncrypt(ExpandKey(key), b);
    }
  }

  function WrapBytes(key: Bytes16, s: seq<byte>): seq<byte> { Flat(Wrap(EncryptWith(key), Words(s))) + Rest(s) }
  function UnwrapBytes(key: Bytes16, s: seq<byte>): (u: seq<byte>)
    ensures |u| == |s|
  {
    Flat(Unwrap(DecryptWith(key), Words(s))) + Rest(s)
  }

  // Wrapping and unwrapping under one key undo each other on buffers of every length.
  lemma WrapUnwrapInverse(key: Bytes16, s: seq<byte>)
    ensures UnwrapBytes(key, WrapBytes(key, s)) == s
    ensures WrapBytes(key, UnwrapBytes(key, s)) == s
  {
    hide Wrap, Unwrap, EncryptWith, DecryptWith, Words, Flat, Rest;
    var enc, dec := EncryptWith(key), DecryptWith(key);
    AesInverses(key);
    WrapInverse(enc, dec, Words(s));
    RestIsShort(s);
    WordsOfFlat(Wrap(enc, Words(s)), Rest(s));
    WordsOfFlat(Unwrap(dec, Words(s)), Rest(s));
    FlatOfWords(s);
  }

  lemma RestIsShort(s: seq<byte>)
    ensures |Rest(s)| < 8
  {
  }
}

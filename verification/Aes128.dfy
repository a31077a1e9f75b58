/** struct aes128 and the routines that update it in place (crypto/aes128.c:97-275). */
module Aes128Context {
  import opened Bytes
  import opened AesTables
  import opened Gf256
  import opened Aes

  // colmul (crypto/aes128.c:136-142)
  method ColMul(w: bv32, a: byte, b: byte, c: byte, d: byte) returns (r: byte)
    requires a < 32 && b < 32 && c < 32 && d < 32
    ensures r == Dot(B0(w), B1(w), B2(w), B3(w), a, b, c, d)
  {
    var m0 := Xmul(B0(w), a);
    var m1 := Xmul(B1(w), b);
    var m2 := Xmul(B2(w), c);
    var m3 := Xmul(B3(w), d);
    AddFour(m0, m1, m2, m3);
    r := m0 ^ m1 ^ m2 ^ m3;
  }

  // A row of a circulant matrix is the first row with both operands rotated.
  lemma RotateDot(b0: byte, b1: byte, b2: byte, b3: byte, a0: byte, a1: byte, a2: byte, a3: byte)
    ensures Dot(b0, b1, b2, b3, a0, a1, a2, a3) == Dot(b1, b2, b3, b0, a1, a2, a3, a0)
  {
    hide Mul, Add;
    AddRotate(Mul(b1, a1), Mul(b2, a2), Mul(b3, a3), Mul(b0, a0));
  }

  class Aes128 {
    const W: array<bv32>  // the round keys
    const S: array<bv32>  // the state, one word a column

    ghost predicate Valid() {
      W.Length == SCHEDULE_WORDS && S.Length == 4 && W != S
    }

    function Keys(): Schedule
      requires Valid()
      reads W
    {
      W[..]
    }

    function State(): Block
      requires Valid()
      reads S
    {
      Block(S[0], S[1], S[2], S[3])
    }

    // An uninitialised context on the stack.
    constructor ()
      ensures Valid() && fresh(W) && fresh(S)
    {
      W := new bv32[SCHEDULE_WORDS];
      S := new bv32[4];
    }

    method AddKey(r: nat)
      requires Valid() && r <= ROUNDS
      modifies S
      ensures State() == AddRoundKey(old(State()), Keys(), r)
    {
      hide Xor;
      for c := 0 to 4
        invariant forall k :: 0 <= k < c ==> S[k] == Xor(old(S[k]), W[4 * r + k])
        invariant forall k :: c <= k < 4 ==> S[k] == old(S[k])
      {
        S[c] := Xor(S[c], W[4 * r + c]);
      }
    }

    method ShiftRowsInPlace()
      requires Valid()
      modifies S
      ensures State() == ShiftRows(old(State()))
    {
      var p0 := RowShift(S[0], S[1], S[2], S[3]);
      var p1 := RowShift(S[1], S[2], S[3], S[0]);
      var p2 := RowShift(S[2], S[3], S[0], S[1]);
      var p3 := RowShift(S[3], S[0], S[1], S[2]);
      S[0], S[1], S[2], S[3] := p0, p1, p2, p3;
    }

    method InvShiftRowsInPlace()
      requires Valid()
      modifies S
      ensures State() == InvShiftRows(old(State()))
    {
      var p0 := RowShift(S[0], S[3], S[2], S[1]);
      var p1 := RowShift(S[1], S[0], S[3], S[2]);
      var p2 := RowShift(S[2], S[1], S[0], S[3]);
      var p3 := RowShift(S[3], S[2], S[1], S[0]);
      S[0], S[1], S[2], S[3] := p0, p1, p2, p3;
    }

    method SubBytesInPlace()
      requires Valid()
      modifies S
      ensures State() == SubBytes(old(State()))
    {
      hide SubWord;
      for i := 0 to 4
        invariant forall k :: 0 <= k < i ==> S[k] == SubWord(old(S[k]))
        invariant forall k :: i <= k < 4 ==> S[k] == old(S[k])
      {
        S[i] := SubWord(S[i]);
      }
    }

    method InvSubBytesInPlace()
      requires Valid()
      modifies S
      ensures State() == InvSubBytes(old(State()))
    {
      hide InvSubWord;
      for i := 0 to 4
        invariant forall k :: 0 <= k < i ==> S[k] == InvSubWord(old(S[k]))
        invariant forall k :: i <= k < 4 ==> S[k] == old(S[k])
      {
        S[i] := InvSubWord(S[i]);
      }
    }

    method MixColumnsInPlace()
      requires Valid()
      modifies S
      ensures State() == MixColumns(old(State()))
    {
      hide MixColumn;
      for i := 0 to 4
        invariant forall k :: 0 <= k < i ==> S[k] == MixColumn(old(S[k]))
        invariant forall k :: i <= k < 4 ==> S[k] == old(S[k])
      {
        S[i] := MixOne(S[i]);
      }
    }

    method InvMixColumnsInPlace()
      requires Valid()
      modifies S
      ensures State() == InvMixColumns(old(State()))
    {
      hide InvMixColumn;
      for i := 0 to 4
        invariant forall k :: 0 <= k < i ==> S[k] == InvMixColumn(old(S[k]))
        invariant forall k :: i <= k < 4 ==> S[k] == old(S[k])
      {
        S[i] := InvMixOne(S[i]);
      }
    }

    // aes128_init (crypto/aes128.c:207-226)
    method Init(key: Bytes16)
      requires Valid()
      modifies W
      ensures Keys() == ExpandKey(key)
    {
      hide SubWord, RotWord, RconWord, Pack, Xor;
      LoadInto(W, key);
      for i := 4 to SCHEDULE_WORDS
        invariant forall k :: 0 <= k < i ==> W[k] == KeyWord(key, k)
      {
        var temp := W[i - 1];
        if i % KEY_WORDS == 0 {
          temp := SubWord(RotWord(temp));
          temp := Xor(temp, RconWord(i / KEY_WORDS));
        }
        W[i] := Xor(W[i - KEY_WORDS], temp);
      }
      assert W[..] == ExpandKey(key);
    }

    // aes128_encrypt (crypto/aes128.c:250-270)
    method EncryptInPlace(blk: array<byte>)
      requires Valid() && blk.Length == 16
      modifies S, blk
      ensures blk[..] == Encrypt(Keys(), old(blk[..]))
    {
      hide LoadBlock, SaveBlock, AddRoundKey, SubBytes, ShiftRows, MixColumns;
      ghost var s := LoadBlock(blk[..]);
      LoadInto(S, blk[..]);
      StateOfLoad(blk[..]);
      AddKey(0);
      for r := 1 to ROUNDS
        invariant State() == EncryptTo(Keys(), s, r - 1)
      {
        SubBytesInPlace();
        ShiftRowsInPlace();
        MixColumnsInPlace();
        AddKey(r);
      }
      SubBytesInPlace();
      ShiftRowsInPlace();
      AddKey(ROUNDS);
      SaveInto(State(), blk);
    }

    lemma StateOfLoad(b: Bytes16)
      requires Valid()
      requires forall k :: 0 <= k < 4 ==> S[k] == Pack(b[4 * k], b[4 * k + 1], b[4 * k + 2], b[4 * k + 3])
      ensures State() == LoadBlock(b)
    {
      hide Pack;
    }

    // aes128_decrypt (crypto/aes128.c:228-248)
    method DecryptInPlace(blk: array<byte>)
      requires Valid() && blk.Length == 16
      modifies S, blk
      ensures blk[..] == Decrypt(Keys(), old(blk[..]))
    {
      hide LoadBlock, SaveBlock, AddRoundKey, InvSubBytes, InvShiftRows, InvMixColumns;
      ghost var s := LoadBlock(blk[..]);
      LoadInto(S, blk[..]);
      StateOfLoad(blk[..]);
      AddKey(ROUNDS);
      for r := ROUNDS downto 1
        invariant State() == DecryptTo(Keys(), s, r)
      {
        InvShiftRowsInPlace();
        InvSubBytesInPlace();
        AddKey(r);
        InvMixColumnsInPlace();
      }
      InvShiftRowsInPlace();
      InvSubBytesInPlace();
      AddKey(0);
      SaveInto(State(), blk);
    }

    // aes128_fini (crypto/aes128.c:272-275)
    method Fini()
      requires Valid()
      modifies W, S
      ensures forall k :: 0 <= k < SCHEDULE_WORDS ==> W[k] == 0
      ensures forall k :: 0 <= k < 4 ==> S[k] == 0
    {
      forall k | 0 <= k < SCHEDULE_WORDS { W[k] := 0; }
      forall k | 0 <= k < 4 { S[k] := 0; }
    }
  }

  // One turn of fwd_mix_columns and of inv_mix_columns (crypto/aes128.c:156-176).
  method MixOne(w: bv32) returns (r: bv32)
    ensures r == MixColumn(w)
  {
    hide Dot, Pack, B0, B1, B2, B3;
    var b0, b1, b2, b3 := B0(w), B1(w), B2(w), B3(w);
    var r0 := ColMul(w, 0x02, 0x03, 0x01, 0x01);
    var r1 := ColMul(w, 0x01, 0x02, 0x03, 0x01);
    var r2 := ColMul(w, 0x01, 0x01, 0x02, 0x03);
    var r3 := ColMul(w, 0x03, 0x01, 0x01, 0x02);
    RotateDot(b0, b1, b2, b3, 1, 2, 3, 1);
    RotateDot(b0, b1, b2, b3, 1, 1, 2, 3);
    RotateDot(b1, b2, b3, b0, 1, 2, 3, 1);
    RotateDot(b0, b1, b2, b3, 3, 1, 1, 2);
    RotateDot(b1, b2, b3, b0, 1, 1, 2, 3);
    RotateDot(b2, b3, b0, b1, 1, 2, 3, 1);
    r := Pack(r0, r1, r2, r3);
  }

  method InvMixOne(w: bv32) returns (r: bv32)
    ensures r == InvMixColumn(w)
  {
    hide Dot, Pack, B0, B1, B2, B3;
    var b0, b1, b2, b3 := B0(w), B1(w), B2(w), B3(w);
    var r0 := ColMul(w, 0x0e, 0x0b, 0x0d, 0x09);
    var r1 := ColMul(w, 0x09, 0x0e, 0x0b, 0x0d);
    var r2 := ColMul(w, 0x0d, 0x09, 0x0e, 0x0b);
    var r3 := ColMul(w, 0x0b, 0x0d, 0x09, 0x0e);
    RotateDot(b0, b1, b2, b3, 9, 14, 11, 13);
    RotateDot(b0, b1, b2, b3, 13, 9, 14, 11);
    RotateDot(b1, b2, b3, b0, 9, 14, 11, 13);
    RotateDot(b0, b1, b2, b3, 11, 13, 9, 14);
    RotateDot(b1, b2, b3, b0, 13, 9, 14, 11);
    RotateDot(b2, b3, b0, b1, 9, 14, 11, 13);
    r := Pack(r0, r1, r2, r3);
  }

  // load_block (crypto/aes128.c:178-189)
  method LoadInto(b: array<bv32>, src: Bytes16)
    requires b.Length >= 4
    modifies b
    ensures forall k :: 0 <= k < 4 ==> b[k] == Pack(src[4 * k], src[4 * k + 1], src[4 * k + 2], src[4 * k + 3])
    ensures forall k :: 4 <= k < b.Length ==> b[k] == old(b[k])
  {
    hide Pack;
    b[0] := Pack(src[0], src[1], src[2], src[3]);
    b[1] := Pack(src[4], src[5], src[6], src[7]);
    b[2] := Pack(src[8], src[9], src[10], src[11]);
    b[3] := Pack(src[12], src[13], src[14], src[15]);
  }

  // save_block (crypto/aes128.c:199-205)
  method SaveInto(s: Block, blk: array<byte>)
    requires blk.Length == 16
    modifies blk
    ensures blk[..] == SaveBlock(s)
  {
    hide Unpack;
    StoreBig(s.c0, blk, 0);
    StoreBig(s.c1, blk, 4);
    assert blk[0..4] == Unpack(s.c0);
    StoreBig(s.c2, blk, 8);
    assert blk[0..4] == Unpack(s.c0) && blk[4..8] == Unpack(s.c1);
    StoreBig(s.c3, blk, 12);
    assert blk[0..4] == Unpack(s.c0) && blk[4..8] == Unpack(s.c1) && blk[8..12] == Unpack(s.c2);
    Sixteen(blk[..]);
  }

  lemma Sixteen(s: seq<byte>)
    requires |s| == 16
    ensures s == s[0..4] + s[4..8] + s[8..12] + s[12..16]
  {
  }
}

/** AES-128 as crypto/aes128.c runs it over two word arrays, its round functions
    written as sections 5.1 to 5.3 of FIPS 197 define them, and the proof that
    decryption and encryption undo each other under every key schedule. */
module Aes {
  import opened Bytes
  import opened AesTables
  import opened Gf256

  // The state: four columns, each a word with row 0 in its top byte.
  datatype Block = Block(c0: bv32, c1: bv32, c2: bv32, c3: bv32)

  const KEY_WORDS := 4    // Nk
  const ROUNDS := 10      // Nr
  const SCHEDULE_WORDS := 44

  // ---- Round functions ----

  function SubWord(w: bv32): bv32 { Pack(Sbox(B0(w)), Sbox(B1(w)), Sbox(B2(w)), Sbox(B3(w))) }
  function InvSubWord(w: bv32): bv32 { Pack(Rbox(B0(w)), Rbox(B1(w)), Rbox(B2(w)), Rbox(B3(w))) }
  function RotWord(w: bv32): bv32 { (w << 8) | ((w >> 24) & 0xff) }

  function SubBytes(s: Block): Block { Block(SubWord(s.c0), SubWord(s.c1), SubWord(s.c2), SubWord(s.c3)) }
  function InvSubBytes(s: Block): Block {
    Block(InvSubWord(s.c0), InvSubWord(s.c1), InvSubWord(s.c2), InvSubWord(s.c3))
  }

  // Row i of the new column comes from the i-th argument (crypto/aes128.c:107-110).
  function RowShift(a: bv32, b: bv32, c: bv32, d: bv32): bv32 { Pack(B0(a), B1(b), B2(c), B3(d)) }

  function ShiftRows(s: Block): Block {
    Block(RowShift(s.c0, s.c1, s.c2, s.c3), RowShift(s.c1, s.c2, s.c3, s.c0),
          RowShift(s.c2, s.c3, s.c0, s.c1), RowShift(s.c3, s.c0, s.c1, s.c2))
  }
  function InvShiftRows(s: Block): Block {
    Block(RowShift(s.c0, s.c3, s.c2, s.c1), RowShift(s.c1, s.c0, s.c3, s.c2),
          RowShift(s.c2, s.c1, s.c0, s.c3), RowShift(s.c3, s.c2, s.c1, s.c0))
  }

  function MixColumn(w: bv32): bv32 {
    var b0, b1, b2, b3 := B0(w), B1(w), B2(w), B3(w);
    Pack(Fwd(b0, b1, b2, b3), Fwd(b1, b2, b3, b0), Fwd(b2, b3, b0, b1), Fwd(b3, b0, b1, b2))
  }
  function InvMixColumn(w: bv32): bv32 {
    var b0, b1, b2, b3 := B0(w), B1(w), B2(w), B3(w);
    Pack(Inv(b0, b1, b2, b3), Inv(b1, b2, b3, b0), Inv(b2, b3, b0, b1), Inv(b3, b0, b1, b2))
  }
  function MixColumns(s: Block): Block { Block(MixColumn(s.c0), MixColumn(s.c1), MixColumn(s.c2), MixColumn(s.c3)) }
  function InvMixColumns(s: Block): Block {
    Block(InvMixColumn(s.c0), InvMixColumn(s.c1), InvMixColumn(s.c2), InvMixColumn(s.c3))
  }

  function XorBlock(s: Block, k: Block): Block {
    Block(Xor(s.c0, k.c0), Xor(s.c1, k.c1), Xor(s.c2, k.c2), Xor(s.c3, k.c3))
  }

  type Schedule = w: seq<bv32> | |w| == SCHEDULE_WORDS witness seq(SCHEDULE_WORDS, _ => 0)

  function RoundKey(w: Schedule, r: nat): Block
    requires r <= ROUNDS
  {
    Block(w[4 * r], w[4 * r + 1], w[4 * r + 2], w[4 * r + 3])
  }

  function AddRoundKey(s: Block, w: Schedule, r: nat): Block
    requires r <= ROUNDS
  {
    XorBlock(s, RoundKey(w, r))
  }

  // ---- Cipher and inverse cipher (sections 5.1 and 5.3 of FIPS 197) ----

  // The state after the key addition of round r.
  function EncryptTo(w: Schedule, s: Block, r: nat): Block
    requires r < ROUNDS
  {
    if r == 0 then AddRoundKey(s, w, 0)
    else AddRoundKey(MixColumns(ShiftRows(SubBytes(EncryptTo(w, s, r - 1)))), w, r)
  }

  function Cipher(w: Schedule, s: Block): Block {
    AddRoundKey(ShiftRows(SubBytes(EncryptTo(w, s, ROUNDS - 1))), w, ROUNDS)
  }

  // The state once the rounds from the last down to r are undone.
  function DecryptTo(w: Schedule, s: Block, r: nat): Block
    requires 1 <= r <= ROUNDS
    decreases ROUNDS - r
  {
    if r == ROUNDS then AddRoundKey(s, w, ROUNDS)
    else InvMixColumns(AddRoundKey(InvSubBytes(InvShiftRows(DecryptTo(w, s, r + 1))), w, r))
  }

  function InvCipher(w: Schedule, s: Block): Block {
    AddRoundKey(InvSubBytes(InvShiftRows(DecryptTo(w, s, 1))), w, 0)
  }

  // ---- Each step undoes its opposite ----

  lemma SubWordInverse(w: bv32)
    ensures InvSubWord(SubWord(w)) == w && SubWord(InvSubWord(w)) == w
  {
    hide Sbox, Rbox, Pack, B0, B1, B2, B3;
    var b0, b1, b2, b3 := B0(w), B1(w), B2(w), B3(w);
    PackUnpack(b0, b1, b2, b3, w);
    PackUnpack(Sbox(b0), Sbox(b1), Sbox(b2), Sbox(b3), w);
    PackUnpack(Rbox(b0), Rbox(b1), Rbox(b2), Rbox(b3), w);
    TablesAreInverse(b0);
    TablesAreInverse(b1);
    TablesAreInverse(b2);
    TablesAreInverse(b3);
  }

  lemma SubBytesInverse(s: Block)
    ensures InvSubBytes(SubBytes(s)) == s && SubBytes(InvSubBytes(s)) == s
  {
    hide SubWord, InvSubWord;
    SubWordInverse(s.c0);
    SubWordInverse(s.c1);
    SubWordInverse(s.c2);
    SubWordInverse(s.c3);
  }

  lemma MixColumnInverse(w: bv32)
    ensures InvMixColumn(MixColumn(w)) == w && MixColumn(InvMixColumn(w)) == w
  {
    hide Fwd, Inv, Pack, B0, B1, B2, B3;
    var b0, b1, b2, b3 := B0(w), B1(w), B2(w), B3(w);
    PackUnpack(b0, b1, b2, b3, w);
    PackUnpack(Fwd(b0, b1, b2, b3), Fwd(b1, b2, b3, b0), Fwd(b2, b3, b0, b1), Fwd(b3, b0, b1, b2), w);
    PackUnpack(Inv(b0, b1, b2, b3), Inv(b1, b2, b3, b0), Inv(b2, b3, b0, b1), Inv(b3, b0, b1, b2), w);
    InverseAfterForward(b0, b1, b2, b3);
    InverseAfterForward(b1, b2, b3, b0);
    InverseAfterForward(b2, b3, b0, b1);
    InverseAfterForward(b3, b0, b1, b2);
    ForwardAfterInverse(b0, b1, b2, b3);
    ForwardAfterInverse(b1, b2, b3, b0);
    ForwardAfterInverse(b2, b3, b0, b1);
    ForwardAfterInverse(b3, b0, b1, b2);
  }

  lemma MixColumnsInverse(s: Block)
    ensures InvMixColumns(MixColumns(s)) == s && MixColumns(InvMixColumns(s)) == s
  {
    hide MixColumn, InvMixColumn;
    MixColumnInverse(s.c0);
    MixColumnInverse(s.c1);
    MixColumnInverse(s.c2);
    MixColumnInverse(s.c3);
  }

  lemma RowShiftBytes(a: bv32, b: bv32, c: bv32, d: bv32)
    ensures B0(RowShift(a, b, c, d)) == B0(a) && B1(RowShift(a, b, c, d)) == B1(b)
    ensures B2(RowShift(a, b, c, d)) == B2(c) && B3(RowShift(a, b, c, d)) == B3(d)
    ensures RowShift(a, a, a, a) == a
  {
    PackUnpack(B0(a), B1(b), B2(c), B3(d), a);
  }

  lemma ShiftRowsInverse(s: Block)
    ensures InvShiftRows(ShiftRows(s)) == s && ShiftRows(InvShiftRows(s)) == s
  {
    hide Pack, B0, B1, B2, B3;
    var Block(a, b, c, d) := s;
    RowShiftBytes(a, b, c, d);
    RowShiftBytes(b, c, d, a);
    RowShiftBytes(c, d, a, b);
    RowShiftBytes(d, a, b, c);
    RowShiftBytes(a, d, c, b);
    RowShiftBytes(b, a, d, c);
    RowShiftBytes(c, b, a, d);
    RowShiftBytes(d, c, b, a);
  }

  lemma XorBlockTwice(s: Block, k: Block)
    ensures XorBlock(XorBlock(s, k), k) == s
  {
    hide Xor;
    XorTwice(s.c0, k.c0);
    XorTwice(s.c1, k.c1);
    XorTwice(s.c2, k.c2);
    XorTwice(s.c3, k.c3);
  }

  lemma AddRoundKeyTwice(s: Block, w: Schedule, r: nat)
    requires r <= ROUNDS
    ensures AddRoundKey(AddRoundKey(s, w, r), w, r) == s
  {
    hide XorBlock;
    XorBlockTwice(s, RoundKey(w, r));
  }

  // ---- The two round loops meet in the middle ----

  lemma {:induction false} DecryptMeetsEncrypt(w: Schedule, s: Block, r: nat)
    requires 1 <= r <= ROUNDS
    ensures DecryptTo(w, Cipher(w, s), r) == ShiftRows(SubBytes(EncryptTo(w, s, r - 1)))
    decreases ROUNDS - r
  {
    hide AddRoundKey, ShiftRows, InvShiftRows, SubBytes, InvSubBytes, MixColumns, InvMixColumns;
    if r == ROUNDS {
      AddRoundKeyTwice(ShiftRows(SubBytes(EncryptTo(w, s, r - 1))), w, r);
    } else {
      DecryptMeetsEncrypt(w, s, r + 1);
      var before := ShiftRows(SubBytes(EncryptTo(w, s, r - 1)));
      ShiftRowsInverse(SubBytes(EncryptTo(w, s, r)));
      SubBytesInverse(EncryptTo(w, s, r));
      AddRoundKeyTwice(MixColumns(before), w, r);
      MixColumnsInverse(before);
    }
  }

  lemma {:induction false} EncryptMeetsDecrypt(w: Schedule, s: Block, r: nat)
    requires r < ROUNDS
    ensures EncryptTo(w, InvCipher(w, s), r) == InvSubBytes(InvShiftRows(DecryptTo(w, s, r + 1)))
  {
    hide AddRoundKey, ShiftRows, InvShiftRows, SubBytes, InvSubBytes, MixColumns, InvMixColumns;
    var after := InvSubBytes(InvShiftRows(DecryptTo(w, s, r + 1)));
    AddRoundKeyTwice(after, w, r);
    if r > 0 {
      EncryptMeetsDecrypt(w, s, r - 1);
      SubBytesInverse(InvShiftRows(DecryptTo(w, s, r)));
      ShiftRowsInverse(DecryptTo(w, s, r));
      MixColumnsInverse(AddRoundKey(after, w, r));
    }
  }

  // aes128_decrypt after aes128_encrypt, and the reverse.
  lemma CipherInverse(w: Schedule, s: Block)
    ensures InvCipher(w, Cipher(w, s)) == s
    ensures Cipher(w, InvCipher(w, s)) == s
  {
    hide AddRoundKey, ShiftRows, InvShiftRows, SubBytes, InvSubBytes, MixColumns, InvMixColumns;
    DecryptMeetsEncrypt(w, s, 1);
    ShiftRowsInverse(SubBytes(EncryptTo(w, s, 0)));
    SubBytesInverse(EncryptTo(w, s, 0));
    AddRoundKeyTwice(s, w, 0);
    EncryptMeetsDecrypt(w, s, ROUNDS - 1);
    SubBytesInverse(InvShiftRows(DecryptTo(w, s, ROUNDS)));
    ShiftRowsInverse(DecryptTo(w, s, ROUNDS));
    AddRoundKeyTwice(s, w, ROUNDS);
  }

  // Row r of the shifted state is row r of the state, moved left by r columns
  // (section 5.1.2 of FIPS 197).
  function Column(s: Block, c: nat): bv32
    requires c < 4
  {
    if c == 0 then s.c0 else if c == 1 then s.c1 else if c == 2 then s.c2 else s.c3
  }

  function Row(w: bv32, r: nat): byte
    requires r < 4
  {
    if r == 0 then B0(w) else if r == 1 then B1(w) else if r == 2 then B2(w) else B3(w)
  }

  lemma ColumnsAre(s: Block)
    ensures Column(s, 0) == s.c0 && Column(s, 1) == s.c1 && Column(s, 2) == s.c2 && Column(s, 3) == s.c3
  {
  }

  lemma ShiftedColumn(s: Block, c: nat)
    requires c < 4
    ensures Column(ShiftRows(s), c)
         == RowShift(Column(s, c), Column(s, (c + 1) % 4), Column(s, (c + 2) % 4), Column(s, (c + 3) % 4))
  {
    hide RowShift, Column;
    ColumnsAre(s);
    ColumnsAre(ShiftRows(s));
  }

  lemma ShiftRowsMovesRows(s: Block, r: nat, c: nat)
    requires r < 4 && c < 4
    ensures Row(Column(ShiftRows(s), c), r) == Row(Column(s, (c + r) % 4), r)
  {
    hide ShiftRows, RowShift, Column, B0, B1, B2, B3;
    ShiftedColumn(s, c);
    RowShiftBytes(Column(s, c), Column(s, (c + 1) % 4), Column(s, (c + 2) % 4), Column(s, (c + 3) % 4));
  }

  // ---- Blocks as bytes ----

  function LoadBlock(b: Bytes16): Block {
    Block(Pack(b[0], b[1], b[2], b[3]), Pack(b[4], b[5], b[6], b[7]),
          Pack(b[8], b[9], b[10], b[11]), Pack(b[12], b[13], b[14], b[15]))
  }

  function SaveBlock(s: Block): Bytes16 { Unpack(s.c0) + Unpack(s.c1) + Unpack(s.c2) + Unpack(s.c3) }

  lemma LoadSave(s: Block)
    ensures LoadBlock(SaveBlock(s)) == s
  {
    hide Pack, B0, B1, B2, B3;
    PackUnpack(0, 0, 0, 0, s.c0);
    PackUnpack(0, 0, 0, 0, s.c1);
    PackUnpack(0, 0, 0, 0, s.c2);
    PackUnpack(0, 0, 0, 0, s.c3);
  }

  lemma SaveLoad(b: Bytes16)
    ensures SaveBlock(LoadBlock(b)) == b
  {
    hide Pack, B0, B1, B2, B3;
    PackUnpack(b[0], b[1], b[2], b[3], 0);
    PackUnpack(b[4], b[5], b[6], b[7], 0);
    PackUnpack(b[8], b[9], b[10], b[11], 0);
    PackUnpack(b[12], b[13], b[14], b[15], 0);
  }

  function Encrypt(w: Schedule, b: Bytes16): Bytes16 { SaveBlock(Cipher(w, LoadBlock(b))) }
  function Decrypt(w: Schedule, b: Bytes16): Bytes16 { SaveBlock(InvCipher(w, LoadBlock(b))) }

  // Under any schedule, hence under that of every key, the byte-level functions are
  // mutually inverse permutations of the 16-byte blocks.
  lemma DecryptEncrypt(w: Schedule, b: Bytes16)
    ensures Decrypt(w, Encrypt(w, b)) == b
    ensures Encrypt(w, Decrypt(w, b)) == b
  {
    hide LoadBlock, SaveBlock, Cipher, InvCipher;
    LoadSave(Cipher(w, LoadBlock(b)));
    LoadSave(InvCipher(w, LoadBlock(b)));
    CipherInverse(w, LoadBlock(b));
    SaveLoad(b);
  }

  // ---- Key expansion (section 5.2 of FIPS 197) ----

  function Rcon(i: nat): byte
    requires i <= ROUNDS
  {
    [0x8d, 0x01, 0x02, 0x04, 0x08, 0x10, 0x20, 0x40, 0x80, 0x1b, 0x36][i]
  }

  function RconWord(i: nat): bv32
    requires i <= ROUNDS
  {
    (Rcon(i) as bv32) << 24
  }

  // The round constants are the powers of x in the field, starting from 1.
  lemma RconIsPower(i: nat)
    requires 1 <= i <= ROUNDS
    ensures Rcon(i) == XtimeN(1, i - 1)
  {
    if i > 1 {
      RconIsPower(i - 1);
    }
  }

  function Temp(prev: bv32, i: nat): bv32
    requires i < SCHEDULE_WORDS
  {
    if i % KEY_WORDS == 0 then Xor(SubWord(RotWord(prev)), RconWord(i / KEY_WORDS)) else prev
  }

  function KeyWord(key: Bytes16, i: nat): bv32
    requires i < SCHEDULE_WORDS
  {
    if i < KEY_WORDS then Pack(key[4 * i], key[4 * i + 1], key[4 * i + 2], key[4 * i + 3])
    else Xor(KeyWord(key, i - KEY_WORDS), Temp(KeyWord(key, i - 1), i))
  }

  function ExpandKey(key: Bytes16): (w: Schedule)
    ensures forall i :: 0 <= i < SCHEDULE_WORDS ==> w[i] == KeyWord(key, i)
  {
    seq(SCHEDULE_WORDS, i requires 0 <= i < SCHEDULE_WORDS => KeyWord(key, i))
  }
}

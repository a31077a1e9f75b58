/** EAPOL-Key frames (section 11.6.2 of IEEE 802.11-2012, struct eapolkey in
    wsupp_eapol.h:32-47) as byte strings, and the key data elements they carry. */
module EapolFrame {
  import opened Bytes
  import opened Sha1Spec
  import opened WsuppCrypto
  import opened Seqs

  // ---- Two-byte fields ----

  function Be16(n: nat): (s: seq<byte>)
    ensures |s| == 2
  {
    [ToByte(n / 256 % 256), ToByte(n % 256)]
  }

  // ntohs of the two bytes at an offset.
  function U16(f: seq<byte>, at: nat): nat
    requires at + 2 <= |f|
  {
    (f[at] as int) * 256 + f[at + 1] as int
  }

  lemma Be16Digits(n: nat)
    requires n < 0x10000
    ensures Be16(n)[0] as int == n / 256 && Be16(n)[1] as int == n % 256
  {
    hide ToByte;
    TwoDigits(n);
  }

  lemma TwoDigits(n: nat)
    requires n < 0x10000
    ensures n / 256 < 256 && n / 256 % 256 == n / 256
  {
  }

  lemma U16OfBe16(n: nat, f: seq<byte>, at: nat)
    requires n < 0x10000 && at + 2 <= |f| && f[at..at + 2] == Be16(n)
    ensures U16(f, at) == n
  {
    hide Be16;
    var s := f[at..at + 2];
    Be16Digits(n);
    assert f[at] == s[0] && f[at + 1] == s[1];
  }

  // ---- Key information bits (wsupp_eapol.h:17-30) ----

  const KI_TYPEMASK: bv16 := 0x0007
  const KI_SHA: bv16 := 2
  const KI_PAIRWISE: bv16 := 0x0008
  const KI_ACK: bv16 := 0x0080
  const KI_MIC: bv16 := 0x0100
  const KI_SECURE: bv16 := 0x0200
  const KI_ENCRYPTED: bv16 := 0x1000
  // The five bits ptype compares.
  const KI_CHECKED: bv16 := KI_PAIRWISE | KI_ACK | KI_SECURE | KI_MIC | KI_ENCRYPTED

  function InfoBytes(w: bv16): (s: seq<byte>)
    ensures |s| == 2
  {
    [(w >> 8) as byte, (w & 0xff) as byte]
  }

  function JoinInfo(hi: byte, lo: byte): bv16 { ((hi as bv16) << 8) | (lo as bv16) }

  lemma JoinInfoBytes(w: bv16)
    ensures JoinInfo(InfoBytes(w)[0], InfoBytes(w)[1]) == w
  {
  }

  // ptype (wsupp_eapol.c:338-350)
  predicate PType(info: bv16, bits: bv16) {
    info & KI_TYPEMASK == KI_SHA && info & KI_CHECKED == bits
  }

  const KEY_PACKET: byte := 3    // EAPOL_KEY
  const KEY_RSN: byte := 2       // EAPOL_KEY_RSN

  const BITS_1: bv16 := KI_PAIRWISE | KI_ACK
  const BITS_3: bv16 := KI_PAIRWISE | KI_ACK | KI_MIC | KI_ENCRYPTED | KI_SECURE
  const BITS_GROUP: bv16 := KI_SECURE | KI_ENCRYPTED | KI_ACK | KI_MIC
  const INFO_2: bv16 := KI_SHA | KI_PAIRWISE | KI_MIC
  const INFO_4: bv16 := KI_SHA | KI_PAIRWISE | KI_MIC | KI_SECURE
  const INFO_GROUP_2: bv16 := KI_MIC | KI_SECURE

  // ---- Layout ----

  const HEADER := 99             // sizeof(struct eapolkey)
  const MIC_AT := 81
  const PACKET_SIZE := 1024      // the static packet buffer

  type Frame = f: seq<byte> | |f| >= HEADER witness seq(HEADER, _ => 0)

  function Info(f: Frame): bv16 { JoinInfo(f[5], f[6]) }
  function Replay(f: Frame): Bytes8 { f[9..17] }
  function Nonce(f: Frame): Bytes32 { f[17..49] }
  function Rsc(f: Frame): Bytes6 { f[65..71] }
  function MicField(f: Frame): Bytes16 { f[MIC_AT..MIC_AT + 16] }
  function PayLen(f: Frame): nat { U16(f, 97) }

  // The length checks of handle_rawsock (wsupp_eapol.c:572-579).
  predicate WellFormed(f: seq<byte>) {
    && |f| >= HEADER
    && U16(f, 2) + 4 == |f|
    && HEADER + U16(f, 97) <= |f|
    && f[1] == KEY_PACKET
  }

  datatype Header = Header(version: byte, paclen: nat, ktype: byte, info: bv16, keylen: nat, replay: Bytes8,
                           nonce: Bytes32, iv: Bytes16, rsc: Bytes8, reserved: Bytes8, mic: Bytes16, paylen: nat)

  const NO_NONCE: Bytes32 := Fill(32, 0)
  const NO_BYTES8: Bytes8 := Fill(8, 0)

  // Bytes 0..16, 17..80 and 81..98 of a key frame.
  function Head1(h: Header): (s: seq<byte>)
    ensures |s| == 17
  {
    [h.version, KEY_PACKET] + Be16(h.paclen) + [h.ktype] + InfoBytes(h.info) + Be16(h.keylen) + h.replay
  }
  function Head2(h: Header): (s: seq<byte>)
    ensures |s| == 64
  {
    h.nonce + h.iv + h.rsc + h.reserved
  }
  function Head3(h: Header): (s: seq<byte>)
    ensures |s| == 18
  {
    h.mic + Be16(h.paylen)
  }

  function Encode(h: Header): (f: Frame)
    ensures |f| == HEADER
  {
    Head1(h) + Head2(h) + Head3(h)
  }

  lemma Head1Fields(h: Header)
    ensures Head1(h)[0] == h.version && Head1(h)[1] == KEY_PACKET && Head1(h)[2..4] == Be16(h.paclen)
    ensures Head1(h)[4] == h.ktype && Head1(h)[5..7] == InfoBytes(h.info) && Head1(h)[9..17] == h.replay
  {
    hide Be16, InfoBytes;
  }

  // Reading back what was written.
  lemma EncodeFields(h: Header, payload: seq<byte>)
    ensures var f := Encode(h) + payload;
      && f[0] == h.version && f[1] == KEY_PACKET && f[2..4] == Be16(h.paclen) && f[4] == h.ktype
      && Info(f) == h.info && Replay(f) == h.replay && Nonce(f) == h.nonce && Rsc(f) == h.rsc[..6]
      && MicField(f) == h.mic && f[97..99] == Be16(h.paylen) && f[HEADER..] == payload
  {
    hide Be16, InfoBytes, JoinInfo, Head1, Head2, Head3;
    var f := Encode(h) + payload;
    Head1Fields(h);
    JoinInfoBytes(h.info);
    assert f[..17] == Head1(h) && f[17..81] == Head2(h) && f[81..99] == Head3(h);
    assert f[2..4] == f[..17][2..4] && f[5..7] == f[..17][5..7] && f[9..17] == f[..17][9..17];
    Head2Fields(h);
    assert f[17..49] == f[17..81][..32] && f[65..71] == f[17..81][48..54];
    Head3Fields(h);
    assert f[81..97] == f[81..99][..16] && f[97..99] == f[81..99][16..];
    assert f[5] == f[5..7][0] && f[6] == f[5..7][1];
  }

  lemma Head2Fields(h: Header)
    ensures Head2(h)[..32] == h.nonce && Head2(h)[48..54] == h.rsc[..6]
  {
  }

  lemma Head3Fields(h: Header)
    ensures Head3(h)[..16] == h.mic && Head3(h)[16..] == Be16(h.paylen)
  {
    hide Be16;
  }

  lemma EncodeIsWellFormed(h: Header, payload: seq<byte>)
    requires h.paclen == HEADER + |payload| - 4 < 0x10000 && h.paylen == |payload|
    ensures WellFormed(Encode(h) + payload)
    ensures PayLen(Encode(h) + payload) == |payload|
  {
    hide Be16, Encode, U16;
    var f := Encode(h) + payload;
    EncodeFields(h, payload);
    U16OfBe16(h.paclen, f, 2);
    U16OfBe16(h.paylen, f, 97);
  }

  // ---- The message integrity code ----

  // A frame with its MIC field filled in over itself with a zero field.
  function Sign(kck: Bytes16, f: Frame): Frame { WithMic(f, MIC_AT, Mic(kck, f)) }

  // What check_mic tests.
  predicate MicOk(kck: Bytes16, f: Frame) {
    MicField(f) == Mic(kck, WithMic(f, MIC_AT, NO_MIC))
  }

  lemma SignedVerifies(kck: Bytes16, f: Frame)
    requires MicField(f) == NO_MIC
    ensures MicOk(kck, Sign(kck, f))
  {
    hide Mic;
    var s := Sign(kck, f);
    assert MicField(s) == Mic(kck, f);
    assert WithMic(s, MIC_AT, NO_MIC) == f by {
      assert f == f[..MIC_AT] + MicField(f) + f[MIC_AT + 16..];
    }
  }

  // Signing changes no other field.
  lemma SignKeepsFields(kck: Bytes16, f: Frame)
    ensures |Sign(kck, f)| == |f| && Sign(kck, f)[..MIC_AT] == f[..MIC_AT] && Sign(kck, f)[97..] == f[97..]
  {
    hide Mic;
    assert Sign(kck, f)[97..] == f[97..];
  }

  // Frames that agree outside the MIC field agree on every other field.
  lemma SameFields(s: Frame, f: Frame)
    requires |s| == |f| && s[..MIC_AT] == f[..MIC_AT] && s[97..] == f[97..]
    ensures WellFormed(s) <==> WellFormed(f)
    ensures PayLen(s) == PayLen(f) && Info(s) == Info(f) && Replay(s) == Replay(f)
    ensures Nonce(s) == Nonce(f) && Rsc(s) == Rsc(f) && s[4] == f[4] && s[0] == f[0] && s[HEADER..] == f[HEADER..]
  {
    hide JoinInfo;
    assert s[9..17] == s[..MIC_AT][9..17] && s[17..49] == s[..MIC_AT][17..49] && s[65..71] == s[..MIC_AT][65..71];
    assert s[HEADER..] == s[97..][2..];
    assert s[97] == s[97..][0] && s[98] == s[97..][1] && f[97] == f[97..][0] && f[98] == f[97..][1];
    assert forall k :: 0 <= k < MIC_AT ==> s[k] == s[..MIC_AT][k] && f[k] == f[..MIC_AT][k];
  }

  // ---- Order of byte strings (memcmp) ----

  predicate Less(a: seq<byte>, b: seq<byte>)
    requires |a| == |b|
  {
    |a| > 0 && (a[0] < b[0] || (a[0] == b[0] && Less(a[1..], b[1..])))
  }

  lemma {:induction false} LessIsTotal(a: seq<byte>, b: seq<byte>)
    requires |a| == |b|
    ensures !(Less(a, b) && Less(b, a))
    ensures a == b || Less(a, b) || Less(b, a)
  {
    if |a| > 0 {
      LessIsTotal(a[1..], b[1..]);
      if a[0] == b[0] && a[1..] == b[1..] {
        assert a == [a[0]] + a[1..] && b == [b[0]] + b[1..];
      }
    }
  }

  // A byte string as a big-endian number.
  function Number(s: seq<byte>): nat { if s == [] then 0 else Number(s[..|s| - 1]) * 256 + s[|s| - 1] as int }
}

/** What single steps of the handshake guarantee: both ends derive the same keys, the
    frames sent are sound, and an honest authenticator's message 3 is always taken. */
module Handshake {
  import opened Bytes
  import opened Sha1Spec
  import opened WsuppCrypto
  import opened EapolFrame
  import opened Kde
  import opened KeyWrap
  import opened KeyWrapBuffer
  import opened EapolSpec

  // ---- Both ends derive the same keys ----

  // Addresses and nonces enter in ascending order, so the roles do not matter
  // (section 11.6.1.3 of IEEE 802.11-2012).
  lemma RolesAgree(psk: Bytes32, a: Bytes6, b: Bytes6, na: Bytes32, nb: Bytes32)
    ensures PairwiseKeys(psk, a, b, na, nb) == PairwiseKeys(psk, b, a, nb, na)
  {
    hide Less, Prf480;
    LessIsTotal(a, b);
    LessIsTotal(na, nb);
  }

  // ---- The frames sent pass the supplicant's own checks ----

  lemma Packet2IsSound(v: View, ies: Ies)
    ensures WellFormed(Packet2(v, ies)) && MicOk(v.kck, Packet2(v, ies))
    ensures Replay(Packet2(v, ies)) == v.replay && Nonce(Packet2(v, ies)) == v.snonce
    ensures KeyData(Packet2(v, ies)) == ies
  {
    hide Encode, Mic, U16, JoinInfo, Sign, MicOk;
    var h := Header(v.version, HEADER + |ies| - 4, KEY_RSN, INFO_2, 16, v.replay, v.snonce,
                    NO_MIC, NO_BYTES8, NO_BYTES8, NO_MIC, |ies|);
    var f := Unsigned2(v.version, v.replay, v.snonce, ies);
    EncodeFields(h, ies);
    EncodeIsWellFormed(h, ies);
    SignedVerifies(v.kck, f);
    SignKeepsFields(v.kck, f);
    SameFields(Sign(v.kck, f), f);
    assert KeyData(Sign(v.kck, f)) == Sign(v.kck, f)[HEADER..][..|ies|];
  }

  lemma Packet4IsSound(v: View)
    ensures WellFormed(Packet4(v)) && MicOk(v.kck, Packet4(v)) && Replay(Packet4(v)) == v.replay
  {
    hide Encode, Mic, U16, JoinInfo, Sign, MicOk;
    var h := Header(v.version, HEADER - 4, KEY_RSN, INFO_4, 0, v.replay, NO_NONCE, NO_MIC,
                    NO_BYTES8, NO_BYTES8, NO_MIC, 0);
    var f := Unsigned4(v.version, INFO_4, HEADER - 4, v.replay);
    assert f == Encode(h) + [];
    EncodeFields(h, []);
    EncodeIsWellFormed(h, []);
    SignedVerifies(v.kck, f);
    SignKeepsFields(v.kck, f);
    SameFields(Sign(v.kck, f), f);
  }

  // The answer to a group rekey carries a valid MIC, but its length field counts
  // four bytes too many, so the supplicant's own size check would drop it.
  lemma GroupPacket2IsMissized(v: View)
    ensures MicOk(v.kck, GroupPacket2(v)) && !WellFormed(GroupPacket2(v))
  {
    hide Encode, Mic, U16, JoinInfo, Sign, MicOk;
    var h := Header(v.version, HEADER, KEY_RSN, INFO_GROUP_2, 0, v.replay, NO_NONCE, NO_MIC,
                    NO_BYTES8, NO_BYTES8, NO_MIC, 0);
    var f := Unsigned4(v.version, INFO_GROUP_2, HEADER, v.replay);
    assert f == Encode(h) + [];
    EncodeFields(h, []);
    U16OfBe16(HEADER, f, 2);
    SignedVerifies(v.kck, f);
    SignKeepsFields(v.kck, f);
    SameFields(Sign(v.kck, f), f);
  }

  // ---- Message 3 of an honest authenticator ----

  // Everything an authenticator is free to choose. The key data are any elements that
  // are not group keys, the group key, and anything after it, padded to eight bytes.
  datatype Offer = Offer(version: byte, ktype: byte, info: bv16, keylen: nat, replay: Bytes8, iv: Bytes16, rsc: Bytes8,
                         reserved: Bytes8, before: seq<Element>, flags: byte, pad: byte, key: seq<byte>,
                         rest: seq<byte>) {
    ghost predicate Shaped() { (forall e <- before :: e.Fits()) && 16 <= |key| <= 32 }

    ghost predicate Sound(tkip: bool)
      requires Shaped()
    {
      && PType(info, BITS_3)
      && (forall e <- before :: !IsGtkElement(e.Bytes()))
      && GtkIndex(flags) != 0 && |key| == GtkSize(tkip)
      && |Plain()| % 8 == 0 && HEADER + 8 + |Plain()| <= PACKET_SIZE
    }

    ghost function Plain(): (s: seq<byte>)
      requires Shaped()
    {
      EncodeAll(before) + GtkElement(flags, pad, key).Bytes() + rest
    }

    ghost function Wrapped(kek: Bytes16): seq<byte>
      requires Shaped()
    {
      WrapBytes(kek, CHECK_BLOCK + Plain())
    }
  }

  ghost function Header3(o: Offer, anonce: Bytes32, size: nat): Header {
    Header(o.version, HEADER + size - 4, o.ktype, o.info, o.keylen, o.replay, anonce, o.iv, o.rsc, o.reserved,
           NO_MIC, size)
  }

  // The signed frame around wrapped key data.
  ghost function Frame3(o: Offer, kck: Bytes16, anonce: Bytes32, wrapped: seq<byte>): Frame {
    Sign(kck, Encode(Header3(o, anonce, |wrapped|)) + wrapped)
  }

  ghost function Message3(o: Offer, keys: seq<byte>, anonce: Bytes32): Frame
    requires |keys| == 60 && o.Shaped()
  {
    Frame3(o, Kck(keys), anonce, o.Wrapped(Kek(keys)))
  }

  lemma WrapSize(kek: Bytes16, s: seq<byte>)
    ensures |WrapBytes(kek, s)| == |s|
  {
    hide UnwrapBytes, WrapBytes;
    WrapUnwrapInverse(kek, s);
  }

  lemma Frame3Fields(o: Offer, kck: Bytes16, anonce: Bytes32, wrapped: seq<byte>)
    requires HEADER + |wrapped| <= PACKET_SIZE
    ensures var f := Frame3(o, kck, anonce, wrapped);
      && WellFormed(f) && MicOk(kck, f) && |f| == HEADER + |wrapped|
      && Info(f) == o.info && Nonce(f) == anonce && Replay(f) == o.replay && Rsc(f) == o.rsc[..6]
      && PayLen(f) == |wrapped| && KeyData(f) == wrapped
  {
    hide Encode, Mic, U16, JoinInfo, Sign, MicOk;
    var h := Header3(o, anonce, |wrapped|);
    var f := Encode(h) + wrapped;
    EncodeFields(h, wrapped);
    EncodeIsWellFormed(h, wrapped);
    SignedVerifies(kck, f);
    SignKeepsFields(kck, f);
    SameFields(Sign(kck, f), f);
    assert KeyData(Sign(kck, f)) == Sign(kck, f)[HEADER..][..|wrapped|];
  }

  // Wrapped key data unwrap to what the search finds in the plain text.
  lemma UnwrapsTo(kek: Bytes16, f: Frame, plain: seq<byte>)
    requires WellFormed(f) && KeyData(f) == WrapBytes(kek, CHECK_BLOCK + plain)
    requires |plain| % 8 == 0 && |plain| >= 8
    ensures Unwrapped(kek, f) == FindGtk(plain)
  {
    hide UnwrapBytes, WrapBytes, FindGtk, U16;
    var s := CHECK_BLOCK + plain;
    WrapSize(kek, s);
    WrapUnwrapInverse(kek, s);
    assert s[..8] == CHECK_BLOCK && s[8..] == plain;
  }

  // What the supplicant sees in it: the checks pass, and the key data yield the group
  // key the offer was built around.
  lemma Message3Authentic(o: Offer, keys: seq<byte>, anonce: Bytes32, tkip: bool, v: View)
    requires |keys| == 60 && o.Shaped() && o.Sound(tkip)
    requires v.kck == Kck(keys) && v.kek == Kek(keys) && Less(v.replay, o.replay)
    ensures var f := Message3(o, keys, anonce);
      && WellFormed(f) && |f| <= PACKET_SIZE && Info(f) == o.info && Nonce(f) == anonce
      && Replay(f) == o.replay && Rsc(f) == o.rsc[..6]
      && Unwrapped(v.kek, f) == Gtk(GtkIndex(o.flags), o.key)
      && Authentic(v, f, tkip)
  {
    hide UnwrapBytes, WrapBytes, FindGtk, GtkIndex, IsGtkElement, Frame3, WellFormed, U16, Mic, Less, Unwrapped, MicOk;
    var plain := o.Plain();
    var wrapped := WrapBytes(Kek(keys), CHECK_BLOCK + plain);
    WrapSize(Kek(keys), CHECK_BLOCK + plain);
    Frame3Fields(o, Kck(keys), anonce, wrapped);
    UnwrapsTo(Kek(keys), Frame3(o, Kck(keys), anonce, wrapped), plain);
    FindInList(o.before, o.flags, o.pad, o.key, o.rest);
  }

  // The three stored keys are the slices of a derived 60-byte string.
  ghost predicate KeysAre(v: View, k: seq<byte>)
    requires |k| == 60
  {
    v.kck == Kck(k) && v.kek == Kek(k) && v.ptk == Ptk(k)
  }

  // The key as the supplicant installs it: the two MIC keys of TKIP trade places.
  function Installed(key: seq<byte>, tkip: bool): seq<byte>
    requires |key| == GtkSize(tkip)
  {
    if tkip then key[..16] + key[24..] + key[16..24] else key
  }

  // What the supplicant does with an offer made in good faith.
  ghost function Taking(v: View, o: Offer, ptk: Bytes16, tkip: bool): seq<Action>
    requires |o.key| == GtkSize(tkip)
  {
    [Send(v.amac, Packet4(v.(replay := o.replay)), true), UploadPtk(ptk),
     UploadGtk(GtkIndex(o.flags), o.rsc[..6], Installed(o.key, tkip)), Connected]
  }

  // An authenticator that derived its keys from its own side of the exchange always
  // gets its message 3 taken, and the supplicant installs exactly the keys it meant.
  lemma HonestMessage3IsTaken(v: View, link: Link, o: Offer, random: Bytes32, theirs: seq<byte>, f: Datagram)
    requires v.phase == Waiting3 && o.Shaped() && o.Sound(link.tkip) && Less(v.replay, o.replay)
    requires KeysAre(v, PairwiseKeys(link.psk, link.smac, link.bssid, v.snonce, v.anonce))
    requires theirs == PairwiseKeys(link.psk, link.bssid, link.smac, v.anonce, v.snonce)
    requires f == Message3(o, theirs, v.anonce)
    ensures Step(v, link, Receive(link.bssid, f, random, true)).view.phase == Negotiated
    ensures Step(v, link, Receive(link.bssid, f, random, true)).acts == Taking(v, o, Ptk(theirs), link.tkip)
  {
    hide PairwiseKeys, Message3, Step, Less;
    RolesAgree(link.psk, link.smac, link.bssid, v.snonce, v.anonce);
    Message3IsTaken(v, link, o, random, theirs, f);
  }

  // Whatever the three keys held are, a message 3 made with the same ones is taken.
  lemma Message3IsTaken(v: View, link: Link, o: Offer, random: Bytes32, keys: seq<byte>, f: Datagram)
    requires v.phase == Waiting3 && o.Shaped() && o.Sound(link.tkip) && Less(v.replay, o.replay)
    requires |keys| == 60 && KeysAre(v, keys) && f == Message3(o, keys, v.anonce)
    ensures Step(v, link, Receive(link.bssid, f, random, true)).view.phase == Negotiated
    ensures Step(v, link, Receive(link.bssid, f, random, true)).acts == Taking(v, o, Ptk(keys), link.tkip)
  {
    hide Message3, Authentic, Unwrapped, WellFormed, Less, PType, JoinInfo, GtkIndex, Packet4;
    Message3Authentic(o, keys, v.anonce, link.tkip, v);
    var w := TakeGtk(v, f, link.tkip);
    SamePacket4(w, v.(replay := o.replay));
    assert w.gtk[..GtkSize(link.tkip)] == Installed(o.key, link.tkip);
  }

  lemma SamePacket4(v: View, w: View)
    requires v.kck == w.kck && v.version == w.version && v.replay == w.replay
    ensures Packet4(v) == Packet4(w)
  {
    hide Sign;
  }

  // It is never longer than the packet buffer.
  lemma Message3Fits(o: Offer, keys: seq<byte>, anonce: Bytes32, tkip: bool)
    requires |keys| == 60 && o.Shaped() && o.Sound(tkip)
    ensures |Message3(o, keys, anonce)| == HEADER + 8 + |o.Plain()| <= PACKET_SIZE
  {
    hide WrapBytes, Sign, Encode, FindGtk;
    WrapSize(Kek(keys), CHECK_BLOCK + o.Plain());
    SignKeepsFields(Kck(keys), Encode(Header3(o, anonce, |o.Wrapped(Kek(keys))|)) + o.Wrapped(Kek(keys)));
  }
}

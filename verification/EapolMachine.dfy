/** The EAPOL code over its static variables and its one packet buffer
    (wsupp_eapol.c). Every routine is proved to take exactly the step EapolSpec
    defines, whatever the buffer held before. */
module EapolMachine {
  import opened Bytes
  import opened Sha1Spec
  import opened WsuppCrypto
  import opened EapolFrame
  import opened Kde
  import opened KeyWrap
  import opened KeyWrapBuffer
  import opened EapolSpec
  import opened Seqs

  class Supplicant {
    const packet: array<byte>

    var eapolstate: Phase
    var eapolsends: bool
    var version: byte
    var amac: Bytes6
    var anonce: Bytes32
    var snonce: Bytes32
    var replay: Bytes8
    var KCK: Bytes16
    var KEK: Bytes16
    var PTK: Bytes16
    var GTK: Bytes32
    var RSC: Bytes6
    var gtkindex: nat

    ghost predicate Valid() { packet.Length == PACKET_SIZE }

    function Now(): View
      reads this
    {
      View(eapolstate, eapolsends, version, amac, anonce, snonce, replay, KCK, KEK, PTK, GTK, RSC, gtkindex)
    }

    // Static storage: everything starts as zero.
    constructor ()
      ensures Valid() && fresh(packet)
      ensures Now().phase == Idle && !Now().sends
    {
      packet := new byte[PACKET_SIZE](_ => 0);
      eapolstate, eapolsends, version, gtkindex := Idle, false, 0, 0;
      amac, RSC, replay := Fill(6, 0), Fill(6, 0), NO_BYTES8;
      anonce, snonce, GTK := NO_NONCE, NO_NONCE, NO_NONCE;
      KCK, KEK, PTK := NO_MIC, NO_MIC, NO_MIC;
    }

    // prime_eapol_state (wsupp_eapol.c:300-304)
    method PrimeState()
      modifies this
      ensures Now() == old(Now()).(phase := Waiting1, sends := false)
    {
      eapolstate := Waiting1;
      eapolsends := false;
    }

    // reset_eapol_state (wsupp_eapol.c:272-285)
    method ResetState()
      requires Valid()
      modifies this, packet
      ensures Now() == ResetView(old(Now()))
    {
      CleanupKeys();
      KCK, GTK, KEK := NO_MIC, NO_NONCE, NO_MIC;
      snonce, anonce, amac := NO_NONCE, NO_NONCE, Fill(6, 0);
      version := 0;
    }

    // cleanup_keys (wsupp_eapol.c:262-270)
    method CleanupKeys()
      requires Valid()
      modifies this, packet
      ensures Now() == CleanUp(old(Now()))
    {
      forall k | 0 <= k < packet.Length { packet[k] := 0; }
      anonce, snonce, PTK, GTK := NO_NONCE, NO_NONCE, NO_MIC, NO_NONCE;
    }

    // allow_eapol_sends (wsupp_eapol.c:306-312)
    method AllowSends(link: Link, sendOk: bool) returns (acts: seq<Action>)
      requires Valid()
      modifies this, packet
      ensures Result(Now(), acts) == Step(old(Now()), link, Allow(sendOk))
    {
      hide Send2;
      if eapolstate == Waiting1 {
        eapolsends := true;
        acts := [];
      } else {
        acts := SendPacket2(link, sendOk);
      }
    }

    // The stores of a send routine into the header of the packet buffer.
    method FillHeader(h: Header)
      requires Valid()
      modifies packet
      ensures packet[..HEADER] == Encode(h)
    {
      hide Be16, InfoBytes;
      var at := FillHead(h);
      at := Append(packet, at, h.nonce);
      at := Append(packet, at, h.iv);
      at := Append(packet, at, h.rsc);
      at := Append(packet, at, h.reserved);
      assert packet[..at] == Head1(h) + Head2(h);
      at := Append(packet, at, h.mic);
      at := Append(packet, at, Be16(h.paylen));
      assert packet[..at] == Encode(h);
    }

    // The fields up to the replay counter.
    method FillHead(h: Header) returns (at: nat)
      requires Valid()
      modifies packet
      ensures at == |Head1(h)| && packet[..at] == Head1(h)
    {
      hide Be16, InfoBytes;
      at := Append(packet, 0, [h.version, KEY_PACKET]);
      at := Append(packet, at, Be16(h.paclen));
      at := Append(packet, at, [h.ktype]);
      at := Append(packet, at, InfoBytes(h.info));
      at := Append(packet, at, Be16(h.keylen));
      at := Append(packet, at, h.replay);
      assert packet[..at] == Head1(h);
    }

    // make_mic over the first len bytes, leaving the signed frame in the buffer.
    method SignPacket(len: nat)
      requires Valid() && HEADER <= len <= PACKET_SIZE
      modifies packet
      ensures packet[..len] == Sign(KCK, old(packet[..len]))
    {
      hide Mic;
      MakeMic(packet, MIC_AT, KCK, len);
      ghost var f := old(packet[..len]);
      assert packet[..len] == f[..MIC_AT] + packet[MIC_AT..MIC_AT + 16] + f[MIC_AT + 16..];
    }

    // send_packet (wsupp_eapol.c:314-336): abort_connection when sendto fails.
    method SendPacket(len: nat, sendOk: bool) returns (acts: seq<Action>)
      requires Valid() && len <= PACKET_SIZE
      ensures acts == [Send(amac, packet[..len], sendOk)] + if sendOk then [] else [Abort]
    {
      acts := [Send(amac, packet[..len], sendOk)];
      if !sendOk { acts := acts + [Abort]; }
    }

    // send_packet_2 (wsupp_eapol.c:382-412)
    method SendPacket2(link: Link, sendOk: bool) returns (acts: seq<Action>)
      requires Valid()
      modifies this, packet
      ensures Result(Now(), acts) == Send2(old(Now()), link, sendOk)
    {
      hide Encode, Sign;
      var paylen := |link.ies|;
      var paclen := HEADER + paylen;
      FillHeader(Header(version, paclen - 4, KEY_RSN, INFO_2, 16, replay, snonce,
                        NO_MIC, NO_BYTES8, NO_BYTES8, NO_MIC, paylen));
      var _ := Append(packet, HEADER, link.ies);
      assert packet[..paclen] == Unsigned2(version, replay, snonce, link.ies);
      SignPacket(paclen);
      acts := SendPacket(paclen, sendOk);
      if sendOk { eapolstate := Waiting3; }
    }

    // send_packet_4 (wsupp_eapol.c:445-478)
    method SendPacket4(link: Link, sendOk: bool) returns (acts: seq<Action>)
      requires Valid()
      modifies this, packet
      ensures Result(Now(), acts) == Send4(old(Now()), link.tkip, sendOk)
    {
      hide Encode, Sign;
      FillHeader(Header(version, HEADER - 4, KEY_RSN, INFO_4, 0, replay, NO_NONCE,
                        NO_MIC, NO_BYTES8, NO_BYTES8, NO_MIC, 0));
      SignPacket(HEADER);
      acts := SendPacket(HEADER, sendOk);
      if sendOk {
        eapolstate := Negotiated;
        acts := acts + [UploadPtk(PTK), UploadGtk(gtkindex, RSC, GTK[..GtkSize(link.tkip)])];
        CleanupKeys();
        acts := acts + [Connected];
      }
    }

    // send_group_2 (wsupp_eapol.c:516-543)
    method SendGroup2(link: Link, sendOk: bool) returns (acts: seq<Action>)
      requires Valid()
      modifies packet
      ensures acts == [Send(amac, GroupPacket2(Now()), sendOk)] + [if sendOk then GtkUpload(Now(), link.tkip) else Abort]
    {
      hide Encode, Sign;
      FillHeader(Header(version, HEADER, KEY_RSN, INFO_GROUP_2, 0, replay, NO_NONCE,
                        NO_MIC, NO_BYTES8, NO_BYTES8, NO_MIC, 0));
      SignPacket(HEADER);
      acts := SendPacket(HEADER, sendOk);
      if sendOk {
        acts := acts + [UploadGtk(gtkindex, RSC, GTK[..GtkSize(link.tkip)])];
      }
    }

    // pmk_to_ptk (wsupp_eapol.c:140-173)
    method PmkToPtk(link: Link)
      modifies this
      ensures var keys := PairwiseKeys(link.psk, link.smac, link.bssid, old(snonce), old(anonce));
        Now() == old(Now()).(amac := link.bssid, kck := Kck(keys), kek := Kek(keys), ptk := Ptk(keys))
    {
      hide Prf480, Less;
      amac := link.bssid;
      var mac1, mac2 := amac, link.smac;
      if Less(link.smac, amac) { mac1, mac2 := link.smac, amac; }
      var nonce1, nonce2 := anonce, snonce;
      if Less(snonce, anonce) { nonce1, nonce2 := snonce, anonce; }
      var key := new byte[60];
      Prf480Into(key, link.psk, EXPANSION, mac1, mac2, nonce1, nonce2);
      KCK, KEK, PTK := key[0..16], key[16..32], key[32..48];
      assert key[0..16] == key[..][..16] && key[16..32] == key[..][16..32] && key[32..48] == key[..][32..48];
    }

    // What recv_packet_1 stores, and the keys it derives (wsupp_eapol.c:361-366).
    method KeepPacket1(link: Link, rd: nat, random: Bytes32)
      requires Valid() && HEADER <= rd <= PACKET_SIZE
      modifies this
      ensures Now() == TakePacket1(old(Now()), link, packet[..rd], random)
    {
      hide PairwiseKeys, Kck, Kek, Ptk;
      ghost var f: Frame := packet[..rd];
      assert packet[17..49] == Nonce(f) && packet[9..17] == Replay(f);
      version := packet[0];
      anonce := packet[17..49];
      replay := packet[9..17];
      snonce := random;
      PmkToPtk(link);
    }

    // recv_packet_1 (wsupp_eapol.c:352-372)
    method ReceivePacket1(link: Link, rd: nat, random: Bytes32, sendOk: bool) returns (acts: seq<Action>)
      requires Valid() && HEADER <= rd <= PACKET_SIZE
      modifies this, packet
      ensures Result(Now(), acts) == Receive1(old(Now()), link, old(packet[..rd]), random, sendOk)
    {
      hide TakePacket1, Send2, PType, JoinInfo;
      if packet[4] != KEY_RSN { return [Abort]; }
      if !PType(JoinInfo(packet[5], packet[6]), BITS_1) { return []; }
      KeepPacket1(link, rd, random);
      if eapolsends {
        acts := SendPacket2(link, sendOk);
      } else {
        eapolstate := Waiting2;
        acts := [];
      }
    }

    // The part packet 3/4 and packet 1/2 share: replay check aside, the MIC, then
    // the key data, unwrapped in place (wsupp_eapol.c:428-440, 499-511).
    method CheckFrameMic(rd: nat) returns (ok: bool)
      requires Valid() && HEADER <= rd <= PACKET_SIZE
      modifies packet
      ensures ok <==> MicOk(KCK, old(packet[..rd]))
      ensures packet[..rd] == WithMic(old(packet[..rd]), MIC_AT, NO_MIC)
    {
      hide Mic;
      ghost var f := packet[..rd];
      ok := CheckMic(packet, MIC_AT, KCK, rd);
      assert f[MIC_AT..MIC_AT + 16] == old(packet[MIC_AT..MIC_AT + 16]);
    }

    // unwrap_key and fetch_gtk on the payload of the frame in the buffer.
    method UnwrapPayload(rd: nat) returns (r: GtkResult)
      requires Valid() && rd <= PACKET_SIZE && WellFormed(packet[..rd])
      modifies packet
      ensures r == Unwrapped(KEK, old(packet[..rd]))
      ensures packet[..HEADER] == old(packet[..HEADER])
    {
      hide UnwrapBytes, WrapBytes, FindGtk;
      ghost var f: Frame := packet[..rd];
      var paylen := U16(packet[..], 97);
      assert paylen == PayLen(f);
      assert packet[HEADER..HEADER + paylen] == KeyData(f);
      var ok := UnwrapKey(KEK, packet, HEADER, paylen);
      if !ok { return NoGtk; }
      ghost var plain := packet[HEADER..HEADER + paylen];
      SliceOfSlice(packet[..], HEADER, HEADER + paylen, 0, 8);
      SliceOfSlice(packet[..], HEADER, HEADER + paylen, 8, paylen);
      assert plain[8..paylen] == plain[8..];
      r := FetchGtk(packet, HEADER + 8, paylen - 8);
    }

    // store_gtk (wsupp_eapol.c:184-204)
    method StoreGtk(index: nat, key: seq<byte>, tkip: bool) returns (ok: bool)
      modifies this
      ensures ok <==> |key| == GtkSize(tkip)
      ensures Now() == if ok then old(Now()).(gtkindex := index, gtk := StoredGtk(old(GTK), key, tkip)) else old(Now())
    {
      if |key| != GtkSize(tkip) { return false; }
      gtkindex := index;
      GTK := key[..16] + GTK[16..];
      if tkip {
        GTK := GTK[..16] + key[24..] + GTK[24..];
        GTK := GTK[..24] + key[16..24];
      }
      ok := true;
    }

    // MIC, payload, group key, then RSC and replay counter: what recv_packet_3 and
    // recv_group_1 both do once the replay counter is fresh.
    method TakeKeys(link: Link, rd: nat) returns (mic: bool, taken: bool)
      requires Valid() && rd <= PACKET_SIZE && WellFormed(packet[..rd])
      requires Less(replay, Replay(packet[..rd]))
      modifies this, packet
      ensures mic <==> MicOk(old(KCK), old(packet[..rd]))
      ensures taken ==> mic
      ensures taken <==> Authentic(old(Now()), old(packet[..rd]), link.tkip)
      ensures Now() == if taken then TakeGtk(old(Now()), old(packet[..rd]), link.tkip) else old(Now())
    {
      hide Unwrapped, MicOk, Less, StoredGtk, U16;
      ghost var f: Frame := packet[..rd];
      mic := CheckFrameMic(rd);
      if !mic { return mic, false; }
      ZeroMicKeeps(KEK, f);
      ghost var g: Frame := packet[..rd];
      assert packet[..HEADER] == g[..HEADER];
      var r := UnwrapPayload(rd);
      if r.NoGtk? { return mic, false; }
      taken := StoreGtk(r.index, r.key, link.tkip);
      if taken {
        assert packet[65..71] == packet[..HEADER][65..71] == g[..HEADER][65..71] == Rsc(g);
        assert packet[9..17] == packet[..HEADER][9..17] == g[..HEADER][9..17] == Replay(g);
        RSC := packet[65..71];
        replay := packet[9..17];
      }
    }

    // recv_packet_3 (wsupp_eapol.c:414-443)
    method ReceivePacket3(link: Link, rd: nat, sendOk: bool) returns (acts: seq<Action>)
      requires Valid() && rd <= PACKET_SIZE && WellFormed(packet[..rd])
      modifies this, packet
      ensures Result(Now(), acts) == Receive3(old(Now()), link, old(packet[..rd]), sendOk)
    {
      hide Authentic, TakeGtk, Send4, JoinInfo, U16, Less;
      ghost var f: Frame := packet[..rd];
      assert packet[17..49] == Nonce(f) && packet[9..17] == Replay(f);
      var info := JoinInfo(packet[5], packet[6]);
      OneKindOnly(info);
      if PType(info, BITS_1) { return [Abort]; }
      if !PType(info, BITS_3) { return [Abort]; }
      if anonce != packet[17..49] { return [Abort]; }
      if !Less(replay, packet[9..17]) {
        NotFresh(Now(), f, link.tkip);
        return [Abort];
      }
      var mic, taken := TakeKeys(link, rd);
      if !taken { return [Abort]; }
      acts := SendPacket4(link, sendOk);
    }

    // recv_group_1 (wsupp_eapol.c:488-514)
    method ReceiveGroup1(link: Link, rd: nat, sendOk: bool) returns (acts: seq<Action>)
      requires Valid() && rd <= PACKET_SIZE && WellFormed(packet[..rd])
      modifies this, packet
      ensures Result(Now(), acts) == ReceiveGroup(old(Now()), link, old(packet[..rd]), sendOk)
    {
      hide Authentic, TakeGtk, GroupPacket2, GtkUpload, JoinInfo, U16, MicOk, Less;
      ghost var f: Frame := packet[..rd];
      assert packet[9..17] == Replay(f);
      if packet[4] != KEY_RSN { return []; }
      if !PType(JoinInfo(packet[5], packet[6]), BITS_GROUP) { return []; }
      if !Less(replay, packet[9..17]) { return []; }
      var mic, taken := TakeKeys(link, rd);
      if !mic { return []; }
      if !taken { return [Abort]; }
      acts := SendGroup2(link, sendOk);
    }

    // handle_rawsock and dispatch (wsupp_eapol.c:545-582); data is what recvfrom
    // delivered from sender.
    method HandleRawsock(link: Link, sender: Bytes6, data: Datagram, random: Bytes32, sendOk: bool)
      returns (acts: seq<Action>)
      requires Valid()
      modifies this, packet
      ensures Result(Now(), acts) == Step(old(Now()), link, Receive(sender, data, random, sendOk))
    {
      hide Receive1, Receive3, ReceiveGroup, U16;
      var rd := Append(packet, 0, data);
      assert packet[..rd] == data;
      if link.bssid != sender { return []; }
      if rd < HEADER { return []; }
      if U16(packet[..rd], 2) + 4 != rd { return []; }
      if HEADER + U16(packet[..rd], 97) > rd { return []; }
      if packet[1] != KEY_PACKET { return []; }
      match eapolstate {
        case Waiting1 => acts := ReceivePacket1(link, rd, random, sendOk);
        case Waiting3 => acts := ReceivePacket3(link, rd, sendOk);
        case Negotiated => acts := ReceiveGroup1(link, rd, sendOk);
        case _ => acts := [];
      }
    }
  }

  // Zeroing the MIC field changes nothing the rest of the checks read.
  lemma ZeroMicKeeps(kek: Bytes16, f: Frame)
    requires WellFormed(f)
    ensures WellFormed(WithMic(f, MIC_AT, NO_MIC))
    ensures Unwrapped(kek, WithMic(f, MIC_AT, NO_MIC)) == Unwrapped(kek, f)
    ensures Rsc(WithMic(f, MIC_AT, NO_MIC)) == Rsc(f) && Replay(WithMic(f, MIC_AT, NO_MIC)) == Replay(f)
  {
    hide UnwrapBytes, FindGtk, U16, UnwrapLength;
    var g := WithMic(f, MIC_AT, NO_MIC);
    assert g[..MIC_AT] == f[..MIC_AT] && g[97..] == f[97..];
    SameFields(g, f);
    assert KeyData(g) == g[HEADER..][..PayLen(g)] && KeyData(f) == f[HEADER..][..PayLen(f)];
  }

  // A frame with the bits of packet 1/4 does not have those of packet 3/4.
  lemma OneKindOnly(info: bv16)
    ensures !(PType(info, BITS_1) && PType(info, BITS_3))
  {
  }

  lemma NotFresh(v: View, f: Frame, tkip: bool)
    requires WellFormed(f) && !Less(v.replay, Replay(f))
    ensures !Authentic(v, f, tkip)
  {
  }
}

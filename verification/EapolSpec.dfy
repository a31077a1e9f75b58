/** The supplicant's side of the 4-way handshake (section 11.6.6 of IEEE 802.11-2012)
    and of group rekeying as a transition function: what each event does to the
    state and what it makes the supplicant do (wsupp_eapol.c:140-582). */
module EapolSpec {
  import opened Bytes
  import opened Sha1Spec
  import opened WsuppCrypto
  import opened EapolFrame
  import opened Kde
  import opened KeyWrap
  import opened KeyWrapBuffer
  import opened Seqs

  // eapolstate
  datatype Phase = Idle | Waiting1 | Waiting2 | Waiting3 | Negotiated

  // The variables of wsupp_eapol.c:37-56 that outlive a call.
  datatype View = View(phase: Phase, sends: bool, version: byte, amac: Bytes6, anonce: Bytes32, snonce: Bytes32,
                       replay: Bytes8, kck: Bytes16, kek: Bytes16, ptk: Bytes16, gtk: Bytes32, rsc: Bytes6, gtkindex: nat)

  type Ies = s: seq<byte> | HEADER + |s| <= PACKET_SIZE witness []

  // What the code reads of the rest of the program: the interface address, the AP
  // it is tuned on and the PSK.
  datatype Link = Link(smac: Bytes6, bssid: Bytes6, ies: Ies, tkip: bool, psk: Bytes32)

  datatype Event =
    | Prime                                  // prime_eapol_state
    | Allow(sendOk: bool)                    // allow_eapol_sends
    | Reset                                  // reset_eapol_state
      // handle_rawsock; random is what fill_rand reads, sendOk whether sendto succeeds
    | Receive(sender: Bytes6, data: Datagram, random: Bytes32, sendOk: bool)

  type Datagram = d: seq<byte> | |d| <= PACKET_SIZE witness []

  datatype Action =
    | Send(dest: Bytes6, frame: seq<byte>, ok: bool)
    | UploadPtk(tk: Bytes16)
    | UploadGtk(index: nat, rsc: Bytes6, key: seq<byte>)
    | Connected                              // handle_connect
    | Abort                                  // abort_connection

  datatype Result = Result(view: View, acts: seq<Action>)

  // ---- Keys ----

  // "Pairwise key expansion"
  const EXPANSION: seq<byte> := [
    0x50, 0x61, 0x69, 0x72, 0x77, 0x69, 0x73, 0x65, 0x20, 0x6b, 0x65, 0x79, 0x20,
    0x65, 0x78, 0x70, 0x61, 0x6e, 0x73, 0x69, 0x6f, 0x6e]

  // pmk_to_ptk as seen by one station: its own address and nonce first.
  function PairwiseKeys(psk: Bytes32, mine: Bytes6, theirs: Bytes6, myNonce: Bytes32, theirNonce: Bytes32): (k: seq<byte>)
    ensures |k| == 60
  {
    var (mac1, mac2) := if Less(mine, theirs) then (mine, theirs) else (theirs, mine);
    var (nonce1, nonce2) := if Less(myNonce, theirNonce) then (myNonce, theirNonce) else (theirNonce, myNonce);
    Prf480(psk, EXPANSION, mac1, mac2, nonce1, nonce2)
  }

  function Kck(k: seq<byte>): Bytes16 requires |k| == 60 { k[..16] }
  function Kek(k: seq<byte>): Bytes16 requires |k| == 60 { k[16..32] }
  function Ptk(k: seq<byte>): Bytes16 requires |k| == 60 { k[32..48] }

  // ---- Frames sent ----

  function Unsigned2(version: byte, replay: Bytes8, snonce: Bytes32, ies: Ies): Frame {
    Encode(Header(version, HEADER + |ies| - 4, KEY_RSN, INFO_2, 16, replay, snonce,
                  NO_MIC, NO_BYTES8, NO_BYTES8, NO_MIC, |ies|)) + ies
  }

  function Packet2(v: View, ies: Ies): Frame { Sign(v.kck, Unsigned2(v.version, v.replay, v.snonce, ies)) }

  function Unsigned4(version: byte, info: bv16, paclen: nat, replay: Bytes8): Frame {
    Encode(Header(version, paclen, KEY_RSN, info, 0, replay, NO_NONCE, NO_MIC, NO_BYTES8, NO_BYTES8, NO_MIC, 0))
  }

  function Packet4(v: View): Frame { Sign(v.kck, Unsigned4(v.version, INFO_4, HEADER - 4, v.replay)) }

  // Its length field holds the whole size, four more than the other frames put there
  // (wsupp_eapol.c:535).
  function GroupPacket2(v: View): Frame { Sign(v.kck, Unsigned4(v.version, INFO_GROUP_2, HEADER, v.replay)) }

  // ---- Steps ----

  function Send2(v: View, link: Link, sendOk: bool): Result {
    var sent := Send(v.amac, Packet2(v, link.ies), sendOk);
    if sendOk then Result(v.(phase := Waiting3), [sent]) else Result(v, [sent, Abort])
  }

  // The variables recv_packet_1 sets from the frame.
  function TakePacket1(v: View, link: Link, f: Frame, random: Bytes32): View {
    var keys := PairwiseKeys(link.psk, link.smac, link.bssid, random, Nonce(f));
    v.(version := f[0], anonce := Nonce(f), replay := Replay(f), snonce := random, amac := link.bssid,
       kck := Kck(keys), kek := Kek(keys), ptk := Ptk(keys))
  }

  function Receive1(v: View, link: Link, f: Frame, random: Bytes32, sendOk: bool): Result {
    if f[4] != KEY_RSN then Result(v, [Abort])
    else if !PType(Info(f), BITS_1) then Result(v, [])
    else
      var w := TakePacket1(v, link, f, random);
      if w.sends then Send2(w, link, sendOk) else Result(w.(phase := Waiting2), [])
  }

  // Key data of a frame that passed the length checks.
  function KeyData(f: Frame): seq<byte>
    requires WellFormed(f)
  {
    f[HEADER..HEADER + PayLen(f)]
  }

  // What unwrap_key and fetch_gtk make of the key data.
  function Unwrapped(kek: Bytes16, f: Frame): GtkResult
    requires WellFormed(f)
  {
    if !UnwrapLength(PayLen(f)) then NoGtk
    else
      var plain := UnwrapBytes(kek, KeyData(f));
      if plain[..8] != CHECK_BLOCK then NoGtk else FindGtk(plain[8..])
  }

  // store_gtk (wsupp_eapol.c:184-204)
  function GtkSize(tkip: bool): nat { if tkip then 32 else 16 }

  function StoredGtk(old_: Bytes32, key: seq<byte>, tkip: bool): Bytes32
    requires |key| == GtkSize(tkip)
  {
    if tkip then key[..16] + key[24..] + key[16..24] else key + old_[16..]
  }

  // The checks packet 3/4 and packet 1/2 share: fresh replay counter, MIC, key data.
  predicate Authentic(v: View, f: Frame, tkip: bool)
    requires WellFormed(f)
  {
    && Less(v.replay, Replay(f))
    && MicOk(v.kck, f)
    && Unwrapped(v.kek, f).Gtk?
    && |Unwrapped(v.kek, f).key| == GtkSize(tkip)
  }

  function TakeGtk(v: View, f: Frame, tkip: bool): View
    requires WellFormed(f) && Authentic(v, f, tkip)
  {
    var g := Unwrapped(v.kek, f);
    v.(gtkindex := g.index, gtk := StoredGtk(v.gtk, g.key, tkip), rsc := Rsc(f), replay := Replay(f))
  }

  function GtkUpload(v: View, tkip: bool): Action {
    UploadGtk(v.gtkindex, v.rsc, v.gtk[..GtkSize(tkip)])
  }

  // cleanup_keys (wsupp_eapol.c:262-270)
  function CleanUp(v: View): View { v.(anonce := NO_NONCE, snonce := NO_NONCE, ptk := NO_MIC, gtk := NO_NONCE) }

  function Send4(v: View, tkip: bool, sendOk: bool): Result {
    var sent := Send(v.amac, Packet4(v), sendOk);
    if !sendOk then Result(v, [sent, Abort])
    else Result(CleanUp(v.(phase := Negotiated)), [sent, UploadPtk(v.ptk), GtkUpload(v, tkip), Connected])
  }

  function Receive3(v: View, link: Link, f: Frame, sendOk: bool): Result
    requires WellFormed(f)
  {
    if !PType(Info(f), BITS_3) || v.anonce != Nonce(f) || !Authentic(v, f, link.tkip) then Result(v, [Abort])
    else Send4(TakeGtk(v, f, link.tkip), link.tkip, sendOk)
  }

  function ReceiveGroup(v: View, link: Link, f: Frame, sendOk: bool): Result
    requires WellFormed(f)
  {
    if f[4] != KEY_RSN || !PType(Info(f), BITS_GROUP) then Result(v, [])
    else if !Less(v.replay, Replay(f)) || !MicOk(v.kck, f) then Result(v, [])
    else if !Authentic(v, f, link.tkip) then Result(v, [Abort])
    else
      var w := TakeGtk(v, f, link.tkip);
      var sent := Send(w.amac, GroupPacket2(w), sendOk);
      Result(w, if sendOk then [sent, GtkUpload(w, link.tkip)] else [sent, Abort])
  }

  // dispatch (wsupp_eapol.c:545-553)
  function Dispatch(v: View, link: Link, f: Frame, random: Bytes32, sendOk: bool): Result
    requires WellFormed(f)
  {
    match v.phase
    case Waiting1 => Receive1(v, link, f, random, sendOk)
    case Waiting3 => Receive3(v, link, f, sendOk)
    case Negotiated => ReceiveGroup(v, link, f, sendOk)
    case _ => Result(v, [])
  }

  // reset_eapol_state (wsupp_eapol.c:272-285): the phase, the PSK and the replay
  // counter stay.
  function ResetView(v: View): View {
    CleanUp(v).(kck := NO_MIC, kek := NO_MIC, amac := Fill(6, 0), version := 0)
  }

  function Step(v: View, link: Link, e: Event): Result {
    match e
    case Prime => Result(v.(phase := Waiting1, sends := false), [])
    case Allow(sendOk) => if v.phase == Waiting1 then Result(v.(sends := true), []) else Send2(v, link, sendOk)
    case Reset => Result(ResetView(v), [])
    case Receive(sender, data, random, sendOk) =>
      if sender != link.bssid || !WellFormed(data) then Result(v, []) else Dispatch(v, link, data, random, sendOk)
  }

  // ---- Runs ----

  datatype Input = Input(link: Link, event: Event)

  // All inputs in order; the actions of the whole run, oldest first.
  function Run(v: View, ins: seq<Input>): Result
    decreases |ins|
  {
    if ins == [] then Result(v, [])
    else
      var r := Step(v, ins[0].link, ins[0].event);
      var rest := Run(r.view, ins[1..]);
      Result(rest.view, r.acts + rest.acts)
  }

  lemma {:induction false} RunConcat(v: View, a: seq<Input>, b: seq<Input>)
    ensures Run(v, a + b) == Result(Run(Run(v, a).view, b).view, Run(v, a).acts + Run(Run(v, a).view, b).acts)
    decreases |a|
  {
    hide Step;
    if a == [] {
      assert a + b == b;
    } else {
      assert (a + b)[0] == a[0] && (a + b)[1..] == a[1..] + b;
      RunConcat(Step(v, a[0].link, a[0].event).view, a[1..], b);
    }
  }
}

/** Whole runs of the EAPOL state machine: the two possible orders of packet 1/4 and
    ASSOCIATE come to the same, and what holds in every run, with primings and resets
    anywhere: which keys are held, and under which of them keys reach the card. */
module HandshakeRuns {
  import opened Bytes
  import opened Sha1Spec
  import opened WsuppCrypto
  import opened EapolFrame
  import opened Kde
  import opened KeyWrap
  import opened KeyWrapBuffer
  import opened EapolSpec
  import opened Handshake
  import opened Seqs

  // ---- Packet 1/4 and ASSOCIATE in either order (wsupp_eapol.c:287-312) ----

  // An input the supplicant drops without a trace.
  ghost predicate Ignored(v: View, i: Input) {
    i.event.Receive? && Step(v, i.link, i.event) == Result(v, [])
  }

  ghost predicate AllIgnored(v: View, ins: seq<Input>) { forall i <- ins :: Ignored(v, i) }

  ghost function Then(r: Result, s: Result): Result { Result(s.view, r.acts + s.acts) }

  lemma {:induction false} SkipThen(v: View, quiet: seq<Input>, i: Input, rest: seq<Input>)
    requires AllIgnored(v, quiet)
    ensures Run(v, quiet + [i] + rest)
         == Then(Step(v, i.link, i.event), Run(Step(v, i.link, i.event).view, rest))
    decreases |quiet|
  {
    hide Step;
    var ins := quiet + [i] + rest;
    if quiet == [] {
      assert ins[0] == i && ins[1..] == rest;
    } else {
      assert Ignored(v, quiet[0]);
      assert ins[0] == quiet[0] && ins[1..] == quiet[1..] + [i] + rest;
      SkipThen(v, quiet[1..], i, rest);
    }
  }

  lemma {:induction false} RunOfIgnored(v: View, quiet: seq<Input>)
    requires AllIgnored(v, quiet)
    ensures Run(v, quiet) == Result(v, [])
    decreases |quiet|
  {
    hide Step;
    if quiet != [] {
      assert Ignored(v, quiet[0]);
      RunOfIgnored(v, quiet[1..]);
    }
  }

  // Between packet 1/4 and ASSOCIATE every frame at all is ignored.
  lemma AllIgnoredInWaiting2(v: View, quiet: seq<Input>)
    requires v.phase == Waiting2 && forall i <- quiet :: i.event.Receive?
    ensures AllIgnored(v, quiet)
  {
    hide WellFormed;
  }

  // A frame that starts a handshake.
  ghost predicate IsPacket1(f: seq<byte>) {
    WellFormed(f) && f[4] == KEY_RSN && PType(Info(f), BITS_1)
  }

  ghost function Packet1(link: Link, f: Datagram, random: Bytes32): Input {
    Input(link, Receive(link.bssid, f, random, true))
  }

  ghost function Primed(v: View): View { v.(phase := Waiting1, sends := false) }

  // Where both orders end, but for the sends flag, and the one frame they send.
  ghost function Started(v: View, link: Link, f: Frame, random: Bytes32, sends: bool): View {
    TakePacket1(v, link, f, random).(phase := Waiting3, sends := sends)
  }
  ghost function Answer(v: View, link: Link, f: Frame, random: Bytes32): Action {
    Send(link.bssid, Packet2(TakePacket1(v, link, f, random), link.ies), true)
  }

  lemma SamePacket2(v: View, w: View, ies: Ies)
    requires v.kck == w.kck && v.version == w.version && v.replay == w.replay && v.snonce == w.snonce
    ensures Packet2(v, ies) == Packet2(w, ies)
  {
    hide Sign, Unsigned2;
  }

  lemma Packet1Early(v: View, link: Link, f: Datagram, random: Bytes32,
                     a: seq<Input>, b: seq<Input>, c: seq<Input>)
    requires IsPacket1(f) && AllIgnored(Primed(v), a) && (forall i <- b :: i.event.Receive?)
    requires AllIgnored(Started(v, link, f, random, false), c)
    ensures Run(v, [Input(link, Prime)] + (a + [Packet1(link, f, random)] + (b + [Input(link, Allow(true))] + c)))
         == Result(Started(v, link, f, random, false), [Answer(v, link, f, random)])
  {
    hide U16, PType, JoinInfo, PairwiseKeys, Packet2, Less;
    var v1 := Primed(v);
    var v2 := TakePacket1(v1, link, f, random).(phase := Waiting2);
    var v3 := Started(v, link, f, random, false);
    var allow := Input(link, Allow(true));
    AllIgnoredInWaiting2(v2, b);
    RunOfIgnored(v3, c);
    SamePacket2(v2, TakePacket1(v, link, f, random), link.ies);
    assert Step(v2, link, Allow(true)) == Result(v3, [Answer(v, link, f, random)]);
    SkipThen(v2, b, allow, c);
    assert Step(v1, link, Packet1(link, f, random).event) == Result(v2, []);
    SkipThen(v1, a, Packet1(link, f, random), b + [allow] + c);
    var rest := a + [Packet1(link, f, random)] + (b + [allow] + c);
    assert [Input(link, Prime)] + rest == [] + [Input(link, Prime)] + rest;
    SkipThen(v, [], Input(link, Prime), rest);
  }

  lemma Packet1Late(v: View, link: Link, f: Datagram, random: Bytes32,
                    a: seq<Input>, b: seq<Input>, c: seq<Input>)
    requires IsPacket1(f) && AllIgnored(Primed(v), a) && AllIgnored(Primed(v).(sends := true), b)
    requires AllIgnored(Started(v, link, f, random, true), c)
    ensures Run(v, [Input(link, Prime)] + (a + [Input(link, Allow(true))] + (b + [Packet1(link, f, random)] + c)))
         == Result(Started(v, link, f, random, true), [Answer(v, link, f, random)])
  {
    hide U16, PType, JoinInfo, PairwiseKeys, Packet2, Less;
    var v1 := Primed(v);
    var v2 := v1.(sends := true);
    var v3 := Started(v, link, f, random, true);
    var allow := Input(link, Allow(true));
    RunOfIgnored(v3, c);
    SamePacket2(TakePacket1(v2, link, f, random), TakePacket1(v, link, f, random), link.ies);
    assert Step(v2, link, Packet1(link, f, random).event) == Result(v3, [Answer(v, link, f, random)]);
    SkipThen(v2, b, Packet1(link, f, random), c);
    assert Step(v1, link, Allow(true)) == Result(v2, []);
    SkipThen(v1, a, allow, b + [Packet1(link, f, random)] + c);
    var rest := a + [allow] + (b + [Packet1(link, f, random)] + c);
    assert [Input(link, Prime)] + rest == [] + [Input(link, Prime)] + rest;
    SkipThen(v, [], Input(link, Prime), rest);
  }

  // Both orders, with whatever ignored frames in between: the same single packet 2/4,
  // and the same state but for the flag that sending is allowed.
  lemma EitherOrder(v: View, link: Link, f: Datagram, random: Bytes32, a: seq<Input>, b: seq<Input>, c: seq<Input>,
                    a': seq<Input>, b': seq<Input>, c': seq<Input>, early: Result, late: Result)
    requires IsPacket1(f)
    requires AllIgnored(Primed(v), a) && (forall i <- b :: i.event.Receive?)
    requires AllIgnored(Started(v, link, f, random, false), c)
    requires AllIgnored(Primed(v), a') && AllIgnored(Primed(v).(sends := true), b')
    requires AllIgnored(Started(v, link, f, random, true), c')
    requires early == Run(v, [Input(link, Prime)]
                             + (a + [Packet1(link, f, random)] + (b + [Input(link, Allow(true))] + c)))
    requires late == Run(v, [Input(link, Prime)]
                            + (a' + [Input(link, Allow(true))] + (b' + [Packet1(link, f, random)] + c')))
    ensures early.acts == late.acts == [Answer(v, link, f, random)]
    ensures early.view == late.view.(sends := false) && early.view.phase == Waiting3
    ensures WellFormed(early.acts[0].frame) && MicOk(early.view.kck, early.acts[0].frame)
  {
    hide U16, PType, JoinInfo, AllIgnored, Step, Run, TakePacket1, Packet2, MicOk;
    Packet1Early(v, link, f, random, a, b, c);
    Packet1Late(v, link, f, random, a', b', c');
    Packet2IsSound(TakePacket1(v, link, f, random), link.ies);
  }

  // From there an authenticator that saw that packet 2/4 completes the handshake with
  // any good offer under a higher counter.
  lemma HandshakeCompletes(v: View, link: Link, f: Frame, random: Bytes32, sends: bool, o: Offer, theirs: seq<byte>,
                           f3: Datagram, random3: Bytes32)
    requires o.Shaped() && o.Sound(link.tkip) && Less(Replay(f), o.replay)
    requires theirs == PairwiseKeys(link.psk, link.bssid, link.smac, Nonce(f), random)
    requires f3 == Message3(o, theirs, Nonce(f))
    ensures var v3 := Started(v, link, f, random, sends);
      var r := Step(v3, link, Receive(link.bssid, f3, random3, true));
      r.view.phase == Negotiated && r.acts == Taking(v3, o, Ptk(theirs), link.tkip)
  {
    hide PairwiseKeys, Message3, Step, Taking, Less;
    HonestMessage3IsTaken(Started(v, link, f, random, sends), link, o, random3, theirs, f3);
  }

  // ---- Replay counters as numbers ----

  lemma {:induction false} LessAppended(a: seq<byte>, b: seq<byte>, x: byte, y: byte)
    requires |a| == |b|
    ensures Less(a + [x], b + [y]) <==> Less(a, b) || (a == b && x < y)
  {
    if a == [] {
      assert a + [x] == [x] && b + [y] == [y];
    } else {
      LessAppended(a[1..], b[1..], x, y);
      assert (a + [x])[1..] == a[1..] + [x] && (b + [y])[1..] == b[1..] + [y];
      assert a == [a[0]] + a[1..] && b == [b[0]] + b[1..];
    }
  }

  lemma ByteOrder(x: byte, y: byte)
    ensures x < y <==> x as int < y as int
    ensures x == y <==> x as int == y as int
  {
  }

  // memcmp on counters of one size is the order of the big-endian numbers.
  lemma {:induction false} LessIsNumeric(a: seq<byte>, b: seq<byte>)
    requires |a| == |b|
    ensures Less(a, b) <==> Number(a) < Number(b)
    ensures a == b <==> Number(a) == Number(b)
  {
    if a != [] {
      var n := |a| - 1;
      assert a == a[..n] + [a[n]] && b == b[..n] + [b[n]];
      LessIsNumeric(a[..n], b[..n]);
      LessAppended(a[..n], b[..n], a[n], b[n]);
      ByteOrder(a[n], b[n]);
    }
  }

  // ---- Every run ----

  ghost predicate TookPacket1(v: View, link: Link, e: Event) {
    e.Receive? && e.sender == link.bssid && v.phase == Waiting1 && IsPacket1(e.data)
  }

  // A frame that got through every check of recv_packet_3 or recv_group_1.
  ghost predicate TookKeys(v: View, link: Link, e: Event) {
    && e.Receive? && e.sender == link.bssid && WellFormed(e.data)
    && (|| (v.phase == Waiting3 && PType(Info(e.data), BITS_3) && v.anonce == Nonce(e.data))
        || (v.phase == Negotiated && e.data[4] == KEY_RSN && PType(Info(e.data), BITS_GROUP)))
    && Authentic(v, e.data, link.tkip)
  }

  // What an observer notes down: whether a packet 1/4 was taken since the last priming or
  // reset, the ingredients of its keys, and every replay counter accepted since the last
  // packet 1/4.
  datatype History = History(seen: bool, psk: Bytes32, smac: Bytes6, bssid: Bytes6, anonce: Bytes32, snonce: Bytes32,
                             counters: seq<nat>)

  ghost function Track(h: History, v: View, link: Link, e: Event): History {
    if e.Prime? then h.(seen := false, counters := [])
    else if e.Reset? then h.(seen := false)
    else if TookPacket1(v, link, e) then
      History(true, link.psk, link.smac, link.bssid, Nonce(e.data), e.random, [Number(Replay(e.data))])
    else if TookKeys(v, link, e) then h.(counters := h.counters + [Number(Replay(e.data))])
    else h
  }

  ghost function Keys(h: History): (k: seq<byte>)
    ensures |k| == 60
  {
    PairwiseKeys(h.psk, h.smac, h.bssid, h.snonce, h.anonce)
  }

  ghost predicate Increasing(s: seq<nat>) { forall i, j :: 0 <= i < j < |s| ==> s[i] < s[j] }

  // All bytes zero, as a reset leaves them.
  function NoKeys(): (k: seq<byte>)
    ensures |k| == 60
  {
    Fill(60, 0)
  }

  // The keys an observer expects.
  ghost function Expected(h: History): (k: seq<byte>)
    ensures |k| == 60
  {
    if h.seen then Keys(h) else NoKeys()
  }

  // Held since packet 1/4: the derived keys and what they were derived from; the keys of
  // the card are cleaned up once it has them. Otherwise nothing.
  ghost predicate Holds(v: View, h: History) {
    && v.kck == Kck(Expected(h)) && v.kek == Kek(Expected(h))
    && (v.phase != Negotiated ==> v.ptk == Ptk(Expected(h)))
    && (h.seen ==> v.amac == h.bssid && (v.phase != Negotiated ==> v.anonce == h.anonce && v.snonce == h.snonce))
    && (!h.seen ==> v.anonce == NO_NONCE && v.snonce == NO_NONCE)
  }

  // allowed: whether ASSOCIATE may not be reported before the next priming.
  ghost predicate Inv(v: View, h: History, allowed: bool) {
    && (v.sends || v.phase == Waiting3 || v.phase == Negotiated || v.phase == Idle ==> allowed)
    && (v.phase == Waiting2 && !h.seen ==> allowed)
    && (v.phase != Waiting1 && v.phase != Idle ==> Holds(v, h))
    && (h.seen ==> h.counters != [])
    && (h.counters != [] ==> Increasing(h.counters) && h.counters[|h.counters| - 1] == Number(v.replay))
  }

  // The netlink side reports ASSOCIATE at most once for each priming, and not after a
  // reset.
  ghost predicate Orderly(allowed: bool, ins: seq<Input>)
    decreases |ins|
  {
    ins == [] ||
    match ins[0].event
    case Prime => Orderly(false, ins[1..])
    case Allow(_) => !allowed && Orderly(true, ins[1..])
    case Reset => Orderly(true, ins[1..])
    case Receive(_, _, _, _) => Orderly(allowed, ins[1..])
  }

  ghost function TrackRun(h: History, v: View, ins: seq<Input>): History
    decreases |ins|
  {
    if ins == [] then h
    else TrackRun(Track(h, v, ins[0].link, ins[0].event), Step(v, ins[0].link, ins[0].event).view, ins[1..])
  }

  ghost function Allowed(allowed: bool, ins: seq<Input>): bool
    decreases |ins|
  {
    if ins == [] then allowed
    else Allowed(NowAllowed(allowed, ins[0].event), ins[1..])
  }

  predicate NowAllowed(allowed: bool, e: Event) { !e.Prime? && (allowed || e.Allow? || e.Reset?) }

  lemma Packet1Keeps(v: View, h: History, allowed: bool, link: Link, e: Event)
    requires Inv(v, h, allowed) && TookPacket1(v, link, e)
    ensures Inv(Step(v, link, e).view, Track(h, v, link, e), allowed)
  {
    hide U16, PType, JoinInfo, PairwiseKeys, Packet2, Less, Number;
  }

  lemma KeysKeep(v: View, h: History, allowed: bool, link: Link, e: Event)
    requires Inv(v, h, allowed) && TookKeys(v, link, e)
    ensures Inv(Step(v, link, e).view, Track(h, v, link, e), allowed)
  {
    hide U16, PType, JoinInfo, PairwiseKeys, Packet4, GroupPacket2, Less, Number, Unwrapped, MicOk, StoredGtk;
    LessIsNumeric(v.replay, Replay(e.data));
  }

  lemma OthersKeep(v: View, h: History, allowed: bool, link: Link, e: Event)
    requires Inv(v, h, allowed) && !TookPacket1(v, link, e) && !TookKeys(v, link, e)
    requires e.Allow? ==> !allowed
    ensures Inv(Step(v, link, e).view, Track(h, v, link, e), NowAllowed(allowed, e))
  {
    hide U16, PType, JoinInfo, PairwiseKeys, Packet2, Packet4, GroupPacket2, Less, Number, Authentic, TakeGtk;
  }

  lemma {:induction false} InvInRun(v: View, h: History, allowed: bool, ins: seq<Input>)
    requires Inv(v, h, allowed) && Orderly(allowed, ins)
    ensures Inv(Run(v, ins).view, TrackRun(h, v, ins), Allowed(allowed, ins))
    decreases |ins|
  {
    hide Inv, Step, Track, TookPacket1, TookKeys;
    if ins != [] {
      var i := ins[0];
      if TookPacket1(v, i.link, i.event) {
        OnlyReceives(v, i.link, i.event);
        Packet1Keeps(v, h, allowed, i.link, i.event);
      } else if TookKeys(v, i.link, i.event) {
        OnlyReceives(v, i.link, i.event);
        KeysKeep(v, h, allowed, i.link, i.event);
      } else {
        OthersKeep(v, h, allowed, i.link, i.event);
      }
      InvInRun(Step(v, i.link, i.event).view, Track(h, v, i.link, i.event),
               NowAllowed(allowed, i.event), ins[1..]);
    }
  }

  lemma OnlyReceives(v: View, link: Link, e: Event)
    requires TookPacket1(v, link, e) || TookKeys(v, link, e)
    ensures e.Receive?
  {
  }

  // From the start, and whatever comes then, primings and resets included: past packet 1/4
  // the supplicant's three keys are the slices of PRF-480 over the PSK, the addresses and
  // the nonces of the last packet 1/4, or all zero if a reset came in since; KCK and KEK
  // stay so after the handshake; and the replay counters accepted since that packet
  // strictly increase.
  lemma KeysAndCountersInEveryRun(v: View, h: History, ins: seq<Input>)
    requires v.phase == Idle && !h.seen && h.counters == [] && Orderly(true, ins)
    ensures Inv(Run(v, ins).view, TrackRun(h, v, ins), Allowed(true, ins))
  {
    hide Number, Run, TrackRun, Allowed;
    InvInRun(v, h, true, ins);
  }

  // The same from any state at all, once primed.
  lemma KeysAndCountersOncePrimed(v: View, h: History, link: Link, ins: seq<Input>)
    requires Orderly(false, ins)
    ensures var ins' := [Input(link, Prime)] + ins;
      Inv(Run(v, ins').view, TrackRun(h, v, ins'), Allowed(false, ins'))
  {
    hide Number, Run, TrackRun, Allowed;
    InvInRun(Primed(v), h.(seen := false, counters := []), false, ins);
    PrimedRun(v, h, link, ins);
  }

  lemma PrimedRun(v: View, h: History, link: Link, ins: seq<Input>)
    ensures var ins' := [Input(link, Prime)] + ins;
      && Run(v, ins').view == Run(Primed(v), ins).view
      && TrackRun(h, v, ins') == TrackRun(h.(seen := false, counters := []), Primed(v), ins)
      && Allowed(false, ins') == Allowed(false, ins)
  {
    var ins' := [Input(link, Prime)] + ins;
    assert ins'[0] == Input(link, Prime) && ins'[1..] == ins;
  }

  // Its MIC holds under KCK and its key data are a wrap under KEK.
  ghost predicate MadeUnder(kck: Bytes16, kek: Bytes16, f: seq<byte>) {
    && WellFormed(f) && MicOk(kck, f) && UnwrapLength(PayLen(f))
    && KeyData(f) == WrapBytes(kek, CHECK_BLOCK + UnwrapBytes(kek, KeyData(f))[8..])
  }

  // Keys reach the card only in a step that took a frame from the AP whose counter is
  // fresh, whose MIC holds under KCK and whose key data are a wrap under KEK.
  lemma UploadsAreEarned(v: View, link: Link, e: Event, a: Action)
    requires a in Step(v, link, e).acts && (a.UploadPtk? || a.UploadGtk? || a.Connected?)
    ensures TookKeys(v, link, e) && e.sendOk
    ensures Number(v.replay) < Number(Replay(e.data)) && MadeUnder(v.kck, v.kek, e.data)
    ensures a.UploadPtk? ==> v.phase == Waiting3 && a.tk == v.ptk
  {
    hide U16, PType, JoinInfo, PairwiseKeys, Packet2, Packet4, GroupPacket2, Less, Number, MicOk, StoredGtk, UnwrapBytes,
         WrapBytes, FindGtk;
    assert TookKeys(v, link, e);
    LessIsNumeric(v.replay, Replay(e.data));
    UnwrapAccepts(v.kek, KeyData(e.data));
  }

  // So in every run keys reach the card under keys derived from the PSK exactly when a
  // packet 1/4 was taken since the last priming or reset: the frame's MIC and wrap are by
  // those, and so is the key the card gets. Otherwise all three are zero.
  lemma UploadsByExpectedKeys(v: View, h: History, ins: seq<Input>, i: Input, a: Action)
    requires v.phase == Idle && !h.seen && h.counters == [] && Orderly(true, ins)
    requires a in Step(Run(v, ins).view, i.link, i.event).acts && (a.UploadPtk? || a.UploadGtk? || a.Connected?)
    ensures i.event.Receive?
    ensures var k := Expected(TrackRun(h, v, ins));
      MadeUnder(Kck(k), Kek(k), i.event.data) && (a.UploadPtk? ==> a.tk == Ptk(k))
  {
    hide Run, TrackRun, Step, Expected, MadeUnder, WellFormed, Authentic;
    var w := Run(v, ins).view;
    KeysAndCountersInEveryRun(v, h, ins);
    UploadsAreEarned(w, i.link, i.event, a);
  }

  // And the zero keys do count: after a reset between packets 2/4 and 3/4, a message 3
  // made with all keys zero is taken, and the card gets a pairwise key of zeros.
  lemma ZeroKeysAreTaken(v: View, link: Link, o: Offer, random: Bytes32, f: Datagram)
    requires v.phase == Waiting3 && o.Shaped() && o.Sound(link.tkip) && Less(v.replay, o.replay)
    requires f == Message3(o, NoKeys(), NO_NONCE)
    ensures var w := Step(v, link, Reset).view;
      var r := Step(w, link, Receive(link.bssid, f, random, true));
      r.view.phase == Negotiated && r.acts == Taking(w, o, NO_MIC, link.tkip)
  {
    hide Message3, Less, Taking, WellFormed, Dispatch, Offer.Shaped, Offer.Sound;
    NoKeysAreZero();
    Message3IsTaken(ResetView(v), link, o, random, NoKeys(), f);
  }

  lemma NoKeysAreZero()
    ensures Kck(NoKeys()) == NO_MIC && Kek(NoKeys()) == NO_MIC && Ptk(NoKeys()) == NO_MIC
  {
  }
}

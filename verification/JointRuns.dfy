/** Runs of both machines together: the EAPOL code reads the AP, the PSK and the cipher from
    the station's state (wsupp.h, struct ap), whenever the station calls it and whenever a
    frame arrives. The keys it derives are those of the AUTHENTICATE the session began
    with. */
module JointRuns {
  import opened Bytes
  import opened Octets
  import St = StationSpec
  import R = StationRuns
  import opened StationSessions
  import E = EapolSpec
  import HR = HandshakeRuns
  import opened Composition
  import opened Seqs
  import opened Wrappers

  function ToBytes(s: seq<Octet>): (t: seq<byte>)
    ensures |t| == |s|
  {
    seq(|s|, k requires 0 <= k < |s| => ToByte(s[k]))
  }

  // The interface's address, and the RSN elements for either group cipher.
  datatype Own = Own(smac: Bytes6, ccmp: E.Ies, tkip: E.Ies)

  // What the handshake with an AP is to use.
  function LinkFor(own: Own, t: St.Target): E.Link {
    E.Link(own.smac, ToBytes(t.bssid), if t.tkip then own.tkip else own.ccmp, t.tkip, ToBytes(t.psk))
  }

  // What the EAPOL code reads at any moment.
  function LinkOf(own: Own, s: St.State): E.Link { LinkFor(own, St.Who(s)) }

  // An event of the station, with whether a packet it lets out can be sent, or a frame.
  // What the station is told of a frame's outcome is an event of its own.
  datatype Happening =
    | Event(e: St.Event, sendOk: bool)
    | Frame(sender: Bytes6, data: E.Datagram, random: Bytes32, sendOk: bool)

  // What the acts of the station mean to the EAPOL code.
  function Inputs(link: E.Link, acts: seq<St.Act>, sendOk: bool): seq<E.Input> {
    if acts == [] then []
    else
      (match acts[0]
       case EapolPrime => [E.Input(link, E.Prime)]
       case EapolAllow => [E.Input(link, E.Allow(sendOk))]
       case EapolReset => [E.Input(link, E.Reset)]
       case _ => []) + Inputs(link, acts[1..], sendOk)
  }

  // The station's state and acts, and all the EAPOL code was given.
  datatype Joint = Joint(st: St.Result, ins: seq<E.Input>)

  ghost function JointStep(own: Own, j: Joint, h: Happening): (k: Joint)
    requires St.Fit(j.st.s)
    ensures St.Fit(k.st.s)
  {
    match h
    case Event(e, sendOk) =>
      var r := St.Step(j.st.s, e);
      Joint(St.Result(r.s, j.st.acts + r.acts), j.ins + Inputs(LinkOf(own, j.st.s), r.acts, sendOk))
    case Frame(sender, data, random, sendOk) =>
      Joint(j.st, j.ins + [E.Input(LinkOf(own, j.st.s), E.Receive(sender, data, random, sendOk))])
  }

  ghost function JointRun(own: Own, s: St.State, hs: seq<Happening>): (j: Joint)
    requires St.Fit(s)
    ensures St.Fit(j.st.s)
  {
    if hs == [] then Joint(St.Result(s, []), []) else JointStep(own, JointRun(own, s, hs[..|hs| - 1]), hs[|hs| - 1])
  }

  // ---- The calls agree ----

  lemma {:induction false} KindsOfTwo(a: seq<E.Input>, b: seq<E.Input>)
    ensures Kinds(a + b) == Kinds(a) + Kinds(b)
  {
    if a == [] {
      assert a + b == b;
    } else {
      hide Kind;
      KindsOfTwo(a[1..], b);
      assert (a + b)[1..] == a[1..] + b && (a + b)[0] == a[0];
      Regroup(Kind(a[0].event), Kinds(a[1..]), Kinds(b));
    }
  }

  lemma {:induction false} CallsOfTwo(a: seq<St.Act>, b: seq<St.Act>)
    ensures Calls(a + b) == Calls(a) + Calls(b)
    decreases |b|
  {
    if b == [] {
      assert a + b == a;
    } else {
      var n := |b| - 1;
      CallsOfTwo(a, b[..n]);
      assert (a + b)[..|a + b| - 1] == a + b[..n];
    }
  }

  lemma CallsOfOne(a: St.Act)
    ensures Calls([a]) == if R.ForEapol(a) then [a] else []
  {
    assert [a][..0] == [];
  }

  lemma {:induction false} KindsOfInputs(link: E.Link, acts: seq<St.Act>, sendOk: bool)
    ensures Kinds(Inputs(link, acts, sendOk)) == Calls(acts)
  {
    if acts != [] {
      KindsOfInputs(link, acts[1..], sendOk);
      CallsOfOne(acts[0]);
      CallsOfTwo([acts[0]], acts[1..]);
      assert [acts[0]] + acts[1..] == acts;
      KindsOfFirst(link, acts, sendOk);
    }
  }

  lemma KindsOfFirst(link: E.Link, acts: seq<St.Act>, sendOk: bool)
    requires acts != []
    ensures Kinds(Inputs(link, acts, sendOk))
         == (if R.ForEapol(acts[0]) then [acts[0]] else []) + Kinds(Inputs(link, acts[1..], sendOk))
  {
    var rest := Inputs(link, acts[1..], sendOk);
    var all := Inputs(link, acts, sendOk);
    if R.ForEapol(acts[0]) { assert all[1..] == rest; } else { assert all == rest; }
  }

  // In a joint run the station keeps what it keeps by itself, and the EAPOL code is given
  // just the calls the station made.
  lemma {:induction false} JointKeeps(own: Own, s: St.State, hs: seq<Happening>)
    requires R.Fresh(s)
    ensures var j := JointRun(own, s, hs);
      R.Inv(j.st.s, j.st.acts) && Kinds(j.ins) == Calls(j.st.acts)
  {
    hide St.Step, R.Inv, E.Step, Calls, Kinds;
    if hs == [] {
      R.RunKeeps(s, []);
      StartIs(s);
    } else {
      var n := |hs| - 1;
      var j := JointRun(own, s, hs[..n]);
      JointKeeps(own, s, hs[..n]);
      match hs[n] {
        case Event(e, sendOk) =>
          R.StepKeeps(j.st.s, j.st.acts, e);
          var acts := St.Step(j.st.s, e).acts;
          KindsOfInputs(LinkOf(own, j.st.s), acts, sendOk);
          KindsOfTwo(j.ins, Inputs(LinkOf(own, j.st.s), acts, sendOk));
          CallsOfTwo(j.st.acts, acts);
        case Frame(sender, data, random, sendOk) =>
          var i := E.Input(LinkOf(own, j.st.s), E.Receive(sender, data, random, sendOk));
          KindsOfTwo(j.ins, [i]);
          FrameIsNoCall(i);
      }
    }
  }

  lemma StartIs(s: St.State)
    requires St.Fit(s)
    ensures R.Run(s, []) == St.Result(s, []) && Kinds([]) == Calls([])
  {
  }

  lemma FrameIsNoCall(i: E.Input)
    requires i.event.Receive?
    ensures Kinds([i]) == []
  {
    assert [i][1..] == [];
  }

  // ---- One input more ----

  lemma {:induction false} TrackTwo(h: HR.History, v: E.View, a: seq<E.Input>, b: seq<E.Input>)
    ensures HR.TrackRun(h, v, a + b) == HR.TrackRun(HR.TrackRun(h, v, a), E.Run(v, a).view, b)
    decreases |a|
  {
    hide E.Step, HR.Track;
    if a == [] {
      assert a + b == b;
    } else {
      var i := a[0];
      TrackTwo(HR.Track(h, v, i.link, i.event), E.Step(v, i.link, i.event).view, a[1..], b);
      assert (a + b)[0] == i && (a + b)[1..] == a[1..] + b;
    }
  }

  lemma OneMore(h: HR.History, v: E.View, ins: seq<E.Input>, i: E.Input)
    ensures var w, k := E.Run(v, ins).view, HR.TrackRun(h, v, ins);
      && E.Run(v, ins + [i]).view == E.Step(w, i.link, i.event).view
      && HR.TrackRun(h, v, ins + [i]) == HR.Track(k, w, i.link, i.event)
  {
    hide E.Step, HR.Track;
    E.RunConcat(v, ins, [i]);
    TrackTwo(h, v, ins, [i]);
    assert [i][1..] == [];
    OneInput(E.Run(v, ins).view, HR.TrackRun(h, v, ins), i);
  }

  lemma OneInput(v: E.View, h: HR.History, i: E.Input)
    ensures E.Run(v, [i]).view == E.Step(v, i.link, i.event).view
    ensures HR.TrackRun(h, v, [i]) == HR.Track(h, v, i.link, i.event)
  {
    hide E.Step, HR.Track;
    var none: seq<E.Input> := [];
    assert [i][1..] == none;
    assert E.Run(E.Step(v, i.link, i.event).view, none).view == E.Step(v, i.link, i.event).view;
  }

  // ---- The keys of a session ----

  // The history was noted under this target.
  ghost predicate KeyedBy(own: Own, t: St.Target, h: HR.History) {
    h.seen && h.smac == own.smac && h.bssid == ToBytes(t.bssid) && h.psk == ToBytes(t.psk)
  }

  // In a session that was not reset: the AUTHENTICATE it began with names the station's AP
  // and PSK, and past packet 1/4 the keys were noted under them.
  ghost predicate Tied(own: Own, s: St.State, acts: seq<St.Act>, v: E.View, h: HR.History) {
    InSession(s.auth) && R.LastEapol(acts) != Some(St.EapolReset) ==>
      R.LastAuth(acts) == Some(St.Who(s)) && (v.phase == E.Waiting1 || KeyedBy(own, St.Who(s), h))
  }

  // A frame before packet 1/4 changes nothing, unless it is packet 1/4.
  lemma FrameTies(own: Own, s: St.State, acts: seq<St.Act>, v: E.View, h: HR.History, e: E.Event)
    requires Tied(own, s, acts, v, h) && e.Receive?
    ensures var link := LinkOf(own, s); Tied(own, s, acts, E.Step(v, link, e).view, HR.Track(h, v, link, e))
  {
    hide ToBytes, HR.IsPacket1, HR.TookKeys, R.LastAuth, R.LastEapol;
    var link := LinkOf(own, s);
    if v.phase == E.Waiting1 && !HR.TookPacket1(v, link, e) { OnlyPacket1(v, link, e); }
    TookWhen(v, link, e);
  }

  lemma OnlyPacket1(v: E.View, link: E.Link, e: E.Event)
    requires v.phase == E.Waiting1 && e.Receive? && !HR.TookPacket1(v, link, e)
    ensures E.Step(v, link, e).view.phase == E.Waiting1
  {
  }

  lemma TookWhen(v: E.View, link: E.Link, e: E.Event)
    ensures HR.TookKeys(v, link, e) ==> v.phase != E.Waiting1 && !HR.TookPacket1(v, link, e)
  {
  }

  // Acts that are silent leave the last AUTHENTICATE, the last call and the EAPOL code alone.
  lemma {:induction false} SilentActs(h: seq<St.Act>, acts: seq<St.Act>)
    requires Silent(acts)
    ensures R.LastAuth(h + acts) == R.LastAuth(h) && R.LastEapol(h + acts) == R.LastEapol(h)
    decreases |acts|
  {
    hide R.Requested, R.Orderly;
    if acts == [] {
      assert h + acts == h;
    } else {
      var n := |acts| - 1;
      SilentActs(h, acts[..n]);
      R.Push(h + acts[..n], acts[n]);
      assert h + acts == h + acts[..n] + [acts[n]];
    }
  }

  lemma {:induction false} SilentInputs(link: E.Link, acts: seq<St.Act>, sendOk: bool)
    requires Silent(acts)
    ensures Inputs(link, acts, sendOk) == []
  {
    if acts != [] {
      SilentInputs(link, acts[1..], sendOk);
    }
  }

  // One call, and then silence.
  lemma OneCall(h: seq<St.Act>, acts: seq<St.Act>, link: E.Link, sendOk: bool)
    requires acts != [] && R.ForEapol(acts[0]) && Silent(acts[1..])
    ensures R.LastAuth(h + acts) == R.LastAuth(h) && R.LastEapol(h + acts) == Some(acts[0])
    ensures var all := Inputs(link, acts, sendOk);
      all == [E.Input(link, match acts[0] case EapolPrime => E.Prime case EapolAllow => E.Allow(sendOk) case _ => E.Reset)]
  {
    hide R.Requested, R.Orderly;
    R.Push(h, acts[0]);
    SilentActs(h + [acts[0]], acts[1..]);
    assert h + acts == h + [acts[0]] + acts[1..];
    SilentInputs(link, acts[1..], sendOk);
  }

  // An event of the station: v and h are the EAPOL code before it.
  lemma EventTies(own: Own, s: St.State, acts: seq<St.Act>, ins: seq<E.Input>, v: E.View, h: HR.History,
                  e: St.Event, sendOk: bool)
    requires R.Inv(s, acts)
    requires Tied(own, s, acts, E.Run(v, ins).view, HR.TrackRun(h, v, ins))
    ensures var r := St.Step(s, e);
      var all := ins + Inputs(LinkOf(own, s), r.acts, sendOk);
      Tied(own, r.s, acts + r.acts, E.Run(v, all).view, HR.TrackRun(h, v, all))
  {
    hide St.Step, E.Run, HR.TrackRun, E.Step, HR.Track, ToBytes, KeyedBy, LinkOf, Inputs, R.LastAuth, R.LastEapol,
         R.Requested, R.Orderly, R.Numbered, R.ScanInv, Silent;
    var r := St.Step(s, e);
    if InSession(r.s.auth) && R.LastEapol(acts + r.acts) != Some(St.EapolReset) {
      SessionStep(s, e);
      var link := LinkOf(own, s);
      if GoesOn(s, r) {
        SilentActs(acts, r.acts);
        SilentInputs(link, r.acts, sendOk);
        assert ins + [] == ins;
      } else {
        OneCall(acts, r.acts, link, sendOk);
        OneMore(h, v, ins, Inputs(link, r.acts, sendOk)[0]);
        var w, k := E.Run(v, ins).view, HR.TrackRun(h, v, ins);
        PrimeTies(w, k, link);
        AllowTies(w, k, link, sendOk);
      }
    }
  }

  lemma PrimeTies(v: E.View, h: HR.History, link: E.Link)
    ensures E.Step(v, link, E.Prime).view.phase == E.Waiting1
  {
  }

  lemma AllowTies(v: E.View, h: HR.History, link: E.Link, sendOk: bool)
    ensures v.phase == E.Waiting1 ==> E.Step(v, link, E.Allow(sendOk)).view.phase == E.Waiting1
    ensures HR.Track(h, v, link, E.Allow(sendOk)) == h
  {
  }

  lemma {:induction false} JointRunTies(own: Own, s: St.State, hs: seq<Happening>, v: E.View, h: HR.History)
    requires R.Fresh(s)
    ensures var j := JointRun(own, s, hs);
      Tied(own, j.st.s, j.st.acts, E.Run(v, j.ins).view, HR.TrackRun(h, v, j.ins))
  {
    hide St.Step, R.Inv, R.LastEapol, R.LastAuth, E.Run, HR.TrackRun, E.Step, HR.Track, KeyedBy, LinkOf, Inputs;
    if hs != [] {
      hide Tied;
      var n := |hs| - 1;
      var j := JointRun(own, s, hs[..n]);
      JointRunTies(own, s, hs[..n], v, h);
      JointKeeps(own, s, hs[..n]);
      match hs[n] {
        case Event(e, sendOk) => EventTies(own, j.st.s, j.st.acts, j.ins, v, h, e, sendOk);
        case Frame(sender, data, random, sendOk) =>
          var i := E.Input(LinkOf(own, j.st.s), E.Receive(sender, data, random, sendOk));
          OneMore(h, v, j.ins, i);
          FrameTies(own, j.st.s, j.st.acts, E.Run(v, j.ins).view, HR.TrackRun(h, v, j.ins), i.event);
      }
    }
  }

  // The handshake is past packet 1/4, in a session that was not reset.
  ghost predicate Underway(j: Joint, v: E.View) {
    && InSession(j.st.s.auth) && R.LastEapol(j.st.acts) != Some(St.EapolReset)
    && (v.phase == E.Waiting2 || v.phase == E.Waiting3 || v.phase == E.Negotiated)
  }

  // The keys of an AP and its PSK, with the nonces noted.
  ghost function SessionKeys(own: Own, t: St.Target, h: HR.History): (k: seq<byte>)
    ensures |k| == 60
  {
    E.PairwiseKeys(ToBytes(t.psk), own.smac, ToBytes(t.bssid), h.snonce, h.anonce)
  }

  // In every joint run: past packet 1/4 of a session that was not reset, the keys held are
  // derived from the PSK and the AP of the AUTHENTICATE the session began with, which are
  // still the station's own.
  lemma KeysOfTheAttempt(own: Own, s: St.State, hs: seq<Happening>, v: E.View, h: HR.History)
    requires R.Fresh(s) && v.phase == E.Idle && !h.seen && h.counters == []
    requires var j := JointRun(own, s, hs); Underway(j, E.Run(v, j.ins).view)
    ensures var j := JointRun(own, s, hs);
      var w, k := E.Run(v, j.ins).view, HR.TrackRun(h, v, j.ins);
      var keys := SessionKeys(own, St.Who(j.st.s), k);
      && R.LastAuth(j.st.acts) == Some(St.Who(j.st.s))
      && w.kck == E.Kck(keys) && w.kek == E.Kek(keys) && (w.phase != E.Negotiated ==> w.ptk == E.Ptk(keys))
  {
    hide JointRun, E.Run, HR.TrackRun, R.LastEapol, R.LastAuth, ToBytes, E.PairwiseKeys;
    var j := JointRun(own, s, hs);
    JointRunTies(own, s, hs, v, h);
    RunIsOrderly(own, s, hs);
    HR.KeysAndCountersInEveryRun(v, h, j.ins);
  }

  lemma RunIsOrderly(own: Own, s: St.State, hs: seq<Happening>)
    requires R.Fresh(s)
    ensures HR.Orderly(true, JointRun(own, s, hs).ins)
  {
    hide JointRun, R.LastAuth, R.LastEapol, R.Requested, R.Numbered, R.ScanInv;
    var j := JointRun(own, s, hs);
    JointKeeps(own, s, hs);
    CallsArePaired(j.st.acts);
    PairedIsOrderly(Calls(j.st.acts), 0, j.ins);
  }

  // And so every key that reaches the card then comes by a frame made under those keys; the
  // pairwise one is their part.
  lemma UploadsOfTheAttempt(own: Own, s: St.State, hs: seq<Happening>, v: E.View, h: HR.History, e: E.Event, a: E.Action)
    requires R.Fresh(s) && v.phase == E.Idle && !h.seen && h.counters == []
    requires var j := JointRun(own, s, hs); var w := E.Run(v, j.ins).view;
      && InSession(j.st.s.auth) && R.LastEapol(j.st.acts) != Some(St.EapolReset)
      && a in E.Step(w, LinkOf(own, j.st.s), e).acts && (a.UploadPtk? || a.UploadGtk? || a.Connected?)
    ensures e.Receive?
    ensures var j := JointRun(own, s, hs);
      var keys := SessionKeys(own, St.Who(j.st.s), HR.TrackRun(h, v, j.ins));
      && R.LastAuth(j.st.acts) == Some(St.Who(j.st.s))
      && HR.MadeUnder(E.Kck(keys), E.Kek(keys), e.data) && (a.UploadPtk? ==> a.tk == E.Ptk(keys))
  {
    hide JointRun, E.Run, HR.TrackRun, R.LastEapol, R.LastAuth, ToBytes, E.PairwiseKeys, E.Step, HR.MadeUnder, LinkOf,
         E.Authentic;
    var j := JointRun(own, s, hs);
    var i := E.Input(LinkOf(own, j.st.s), e);
    JointRunTies(own, s, hs, v, h);
    RunIsOrderly(own, s, hs);
    HR.UploadsByExpectedKeys(v, h, j.ins, i, a);
    HR.UploadsAreEarned(E.Run(v, j.ins).view, i.link, e, a);
  }
}

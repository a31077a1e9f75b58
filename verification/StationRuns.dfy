/** What holds over every run of the connection and scan machines, whatever the card,
    the EAPOL code, the timer and the users do. */
module StationRuns {
  import opened Octets
  import opened Scan
  import opened ScanTable
  import opened ApSelect
  import opened PskText
  import opened PskMap
  import opened StationSpec
  import opened Wrappers

  // ---- What a history of commands says ----

  // The AP of the last AUTHENTICATE.
  ghost function LastAuth(h: seq<Act>): Option<Target> {
    if h == [] then None
    else
      var a := h[|h| - 1];
      if a.Authenticate? then Some(a.who) else LastAuth(h[..|h| - 1])
  }

  predicate ForEapol(a: Act) { a.EapolPrime? || a.EapolAllow? || a.EapolReset? }

  // The last call into the EAPOL code.
  ghost function LastEapol(h: seq<Act>): Option<Act> {
    if h == [] then None
    else
      var a := h[|h| - 1];
      if ForEapol(a) then Some(a) else LastEapol(h[..|h| - 1])
  }

  // The frequencies asked for since the last scan was triggered, that one's first.
  ghost function Requested(h: seq<Act>): seq<int> {
    if h == [] then []
    else
      var a := h[|h| - 1];
      if a.TriggerScan? then [a.freq]
      else if a.Joined? then Requested(h[..|h| - 1]) + [a.freq]
      else Requested(h[..|h| - 1])
  }

  // What a list of requests amounts to.
  ghost predicate AnyReconnect(l: seq<int>) { exists k :: 0 <= k < |l| && l[k] > 0 }
  ghost predicate AnyConnect(l: seq<int>) { exists k :: 0 <= k < |l| && l[k] < 0 }

  ghost predicate IsJoin(r: Requests, l: seq<int>) {
    && |l| > 0
    && (r.one <==> l[0] > 0)
    && (r.reconnect <==> AnyReconnect(l))
    && (r.connect <==> AnyConnect(l))
  }

  // The commands that are not about scans.
  predicate Command(a: Act) { a.Authenticate? || a.Associate? || a.Disconnect? || a.NewKey? }

  ghost predicate Numbered(h: seq<Act>, nlseq: nat, scanseq: nat) {
    forall k :: 0 <= k < |h| && Command(h[k]) ==> 1 <= h[k].sq <= nlseq && h[k].sq != scanseq
  }

  // Every ASSOCIATE names what the last AUTHENTICATE named, and packets are allowed out
  // only right after the EAPOL code was primed.
  ghost predicate Orderly(h: seq<Act>) {
    if h == [] then true
    else
      var a := h[|h| - 1];
      && Orderly(h[..|h| - 1])
      && (a.Associate? ==> LastAuth(h[..|h| - 1]) == Some(a.who))
      && (a.EapolAllow? ==> LastEapol(h[..|h| - 1]) == Some(EapolPrime))
  }

  // ---- The invariant ----

  predicate InAttempt(a: Auth) { a.Authenticating? || a.Associating? || a.Connecting? }

  ghost predicate ScanInv(s: State, h: seq<Act>) {
    if s.scan.NoScan? then s.req == NOTHING && s.scanseq == 0
    else IsJoin(s.req, Requested(h)) && 1 <= s.scanseq <= s.nlseq
  }

  ghost predicate Inv(s: State, h: seq<Act>) {
    && Fit(s) && ScanInv(s, h) && Numbered(h, s.nlseq, s.scanseq) && Orderly(h)
    && (InAttempt(s.auth) ==> LastAuth(h) == Some(Who(s)))
    && (s.auth.Associating? ==> LastEapol(h) == Some(EapolPrime))
  }

  lemma Push(h: seq<Act>, a: Act)
    ensures LastAuth(h + [a]) == if a.Authenticate? then Some(a.who) else LastAuth(h)
    ensures LastEapol(h + [a]) == if ForEapol(a) then Some(a) else LastEapol(h)
    ensures Requested(h + [a])
         == if a.TriggerScan? then [a.freq] else if a.Joined? then Requested(h) + [a.freq] else Requested(h)
    ensures Orderly(h + [a]) <==> Orderly(h) && (a.Associate? ==> LastAuth(h) == Some(a.who))
                                  && (a.EapolAllow? ==> LastEapol(h) == Some(EapolPrime))
  {
    assert (h + [a])[..|h|] == h;
  }

  lemma MoreRequests(l: seq<int>, f: int)
    ensures AnyReconnect(l + [f]) <==> AnyReconnect(l) || f > 0
    ensures AnyConnect(l + [f]) <==> AnyConnect(l) || f < 0
    ensures AnyReconnect([f]) <==> f > 0
    ensures AnyConnect([f]) <==> f < 0
  {
    var m := l + [f];
    if AnyReconnect(l) {
      var k :| 0 <= k < |l| && l[k] > 0;
      assert m[k] > 0;
    }
    if AnyConnect(l) {
      var k :| 0 <= k < |l| && l[k] < 0;
      assert m[k] < 0;
    }
    if f != 0 { assert m[|l|] == f && [f][0] == f; }
  }

  // ---- The invariant through the helpers ----

  lemma StartScanKeeps(s: State, h: seq<Act>, freq: int, sent: bool)
    requires Inv(s, h)
    ensures var t := StartScan(s, freq, sent); Inv(t.s, h + t.acts) && t.s.auth == s.auth && t.s.ap == s.ap
  {
    hide LastAuth, LastEapol, Requested, Orderly, AnyReconnect, AnyConnect;
    var t := StartScan(s, freq, sent);
    if t.acts == [] {
      assert h + [] == h;
    } else {
      Push(h, t.acts[0]);
      MoreRequests(Requested(h), freq);
    }
  }

  lemma TriggerDumpKeeps(s: State, h: seq<Act>, sent: bool)
    requires Inv(s, h) && s.scan.Scanning?
    ensures var r := TriggerDump(s, sent); Inv(r.s, h + r.acts)
  {
    hide LastAuth, LastEapol, Requested, Orderly, IsJoin;
    var r := TriggerDump(s, sent);
    if r.acts == [] {
      assert h + [] == h;
    } else {
      Push(h, r.acts[0]);
    }
  }

  lemma StartConnectionKeeps(s: State, h: seq<Act>)
    requires Inv(s, h)
    ensures var t := StartConnection(s); Inv(t.s, h + t.acts)
  {
    hide LastAuth, LastEapol, Requested, Orderly, IsJoin;
    var t := StartConnection(s);
    if t.acts == [] {
      assert h + [] == h;
    } else {
      Push(h, t.acts[0]);
    }
  }

  lemma StartDisconnectKeeps(s: State, h: seq<Act>)
    requires Inv(s, h)
    ensures var t := StartDisconnect(s); Inv(t.s, h + t.acts)
  {
    hide LastAuth, LastEapol, Requested, Orderly, IsJoin;
    var t := StartDisconnect(s);
    if t.acts == [] {
      assert h + [] == h;
    } else {
      Push(h, t.acts[0]);
    }
  }

  lemma SetCurrentKeeps(s: State, h: seq<Act>, i: nat)
    requires Inv(s, h) && !InAttempt(s.auth) && i < NSCANS
    ensures var t := SetCurrentAp(s, i); Inv(t.s, h + t.acts) && t.s.auth == s.auth
  {
    hide LastAuth, LastEapol, Requested, Orderly, IsJoin, LoadOver, LoadLines;
    Push(h, Picked(i));
  }

  lemma {:induction false} ConnectKeeps(s: State, h: seq<Act>)
    requires Inv(s, h) && !InAttempt(s.auth)
    ensures var t := ConnectToSomething(s); Inv(t.s, h + t.acts)
    decreases GoodCount(s.table.slots, s.table.n)
  {
    hide LastAuth, LastEapol, Requested, Orderly, IsJoin, SetCurrentAp, StartConnection, Numbered;
    var i := Best(s.table.slots, s.table.n, FilterOf(s.ap));
    if i < 0 {
      assert h + [] == h;
    } else {
      var t := SetCurrentAp(s, i);
      var c := StartConnection(t.s);
      var g := h + t.acts;
      SetCurrentKeeps(s, h, i);
      if t.ok && c.ok {
        StartConnectionKeeps(t.s, g);
        assert h + (t.acts + c.acts) == g + c.acts;
      } else {
        TurnCostsGood(s, i);
        ConnectKeeps(NotGood(t.s, i), g);
        var r := ConnectToSomething(NotGood(t.s, i));
        assert h + (t.acts + r.acts) == g + r.acts;
      }
    }
  }

  lemma ReassessKeeps(s: State, h: seq<Act>)
    requires Inv(s, h)
    ensures var r := Reassess(s); Inv(r.s, h + r.acts)
  {
    hide LastAuth, LastEapol, Requested, Orderly, IsJoin, ConnectToSomething, Numbered;
    if s.mode == Neutral || s.auth != Idle || s.scan != NoScan {
      assert h + [] == h;
    } else {
      ConnectKeeps(s, h);
      FailureIsQuiet(s);
    }
  }

  // A search that fails leaves the machines as they were.
  lemma {:induction false} FailureIsQuiet(s: State)
    requires Fit(s)
    ensures var t := ConnectToSomething(s); !t.ok ==> t.s.auth == s.auth && t.s.scan == s.scan && t.s.mode == s.mode
    decreases GoodCount(s.table.slots, s.table.n)
  {
    hide LoadOver, LoadLines, LoadCode;
    var i := Best(s.table.slots, s.table.n, FilterOf(s.ap));
    if i >= 0 {
      TurnCostsGood(s, i);
      FailureIsQuiet(NotGood(SetCurrentAp(s, i).s, i));
    }
  }

  lemma AbortKeeps(s: State, h: seq<Act>)
    requires Inv(s, h)
    ensures var r := Abort(s); Inv(r.s, h + r.acts)
  {
    hide Inv, Reassess, StartDisconnect;
    StartDisconnectKeeps(s, h);
    ReassessKeeps(s, h);
  }

  lemma ReconnectKeeps(s: State, h: seq<Act>)
    requires Inv(s, h)
    ensures var r := Reconnect(s); Inv(r.s, h + r.acts)
  {
    hide LastAuth, LastEapol, Requested, Orderly, IsJoin, Reassess, StartConnection, Numbered;
    var w := if s.mode == Rescan then s.(mode := Active) else s;
    StartConnectionKeeps(w, h);
    ReassessKeeps(w, h);
  }

  lemma HandleDisconnectKeeps(s: State, h: seq<Act>, sent: bool)
    requires Inv(s, h) && !InAttempt(s.auth)
    ensures var r := HandleDisconnect(s, sent); Inv(r.s, h + r.acts)
  {
    hide LastAuth, LastEapol, Requested, Orderly, IsJoin, Reassess, StartScan, Numbered;
    assert h + [] == h;
    var w := AfterLoss(s);
    var x := w.(ap := w.ap.(success := false), mode := Rescan);
    StartScanKeeps(x, h, x.ap.freq, sent);
    var y := ClearBssid(w);
    ReassessKeeps(if y.ap.fixed then y else ClearSsid(y), h);
  }

  lemma SnapDisabledKeeps(s: State, h: seq<Act>, sent: bool)
    requires Inv(s, h)
    ensures var r := SnapDisabled(s, sent); Inv(r.s, h + r.acts)
  {
    hide LastAuth, LastEapol, Requested, Orderly, IsJoin, HandleDisconnect;
    var w := s.(mode := Neutral, auth := External);
    Push(h, EapolReset);
    HandleDisconnectKeeps(w, h + [EapolReset], sent);
    assert h + SnapDisabled(s, sent).acts == h + [EapolReset] + HandleDisconnect(w, sent).acts;
  }

  // ---- The invariant through the events ----

  lemma AuthenticateKeeps(s: State, h: seq<Act>, sent: bool)
    requires Inv(s, h)
    ensures var r := OnAuthenticate(s, sent); Inv(r.s, h + r.acts)
  {
    hide LastAuth, LastEapol, Requested, Orderly, IsJoin, SnapDisabled;
    assert h + [] == h;
    if s.auth.Authenticating? {
      var a := Associate(s.nlseq + 1, Who(s));
      Push(h, EapolPrime);
      Push(h + [EapolPrime], a);
      assert h + [EapolPrime, a] == h + [EapolPrime] + [a];
    } else {
      SnapDisabledKeeps(s, h, sent);
    }
  }

  lemma AssociateKeeps(s: State, h: seq<Act>, aborted: bool, sent: bool)
    requires Inv(s, h)
    ensures var r := OnAssociate(s, aborted, sent); Inv(r.s, h + r.acts)
  {
    hide LastAuth, LastEapol, Requested, Orderly, IsJoin, SnapDisabled;
    assert h + [] == h;
    if s.auth.Associating? {
      var g := h + [EapolAllow];
      Push(h, EapolAllow);
      if aborted {
        var d := Disconnect(s.nlseq + 1);
        Push(g, d);
        assert h + ([EapolAllow] + [d]) == g + [d];
      } else {
        assert [EapolAllow] + [] == [EapolAllow];
      }
    } else {
      SnapDisabledKeeps(s, h, sent);
    }
  }

  lemma ConnectedKeeps(s: State, h: seq<Act>, sent: bool)
    requires Inv(s, h)
    ensures var r := OnConnect(s, sent); Inv(r.s, h + r.acts)
  {
    hide LastAuth, LastEapol, Requested, Orderly, IsJoin, SnapDisabled, Numbered;
    assert h + [] == h;
    SnapDisabledKeeps(s, h, sent);
  }

  lemma DisconnectKeeps(s: State, h: seq<Act>, sent: bool)
    requires Inv(s, h)
    ensures var r := OnDisconnect(s, sent); Inv(r.s, h + r.acts)
  {
    hide LastAuth, LastEapol, Requested, Orderly, IsJoin, HandleDisconnect;
    assert h + [] == h;
    if s.auth != Idle {
      var w := s.(auth := Idle);
      Push(h, EapolReset);
      HandleDisconnectKeeps(w, h + [EapolReset], sent);
      assert h + OnDisconnect(s, sent).acts == h + [EapolReset] + HandleDisconnect(w, sent).acts;
    }
  }

  lemma ResetKeeps(s: State, h: seq<Act>)
    requires Inv(s, h)
    ensures Inv(ResetScan(s), h)
  {
  }

  lemma DoneKeeps(s: State, h: seq<Act>)
    requires Inv(s, h)
    ensures var r := OnDone(s); Inv(r.s, h + r.acts)
  {
    hide LastAuth, LastEapol, Requested, Orderly, IsJoin, Reconnect, Reassess, Drop, Numbered, CheckNew;
    assert h + [] == h;
    if s.scan == Dumping {
      ResetKeeps(s, h);
      SweptIsReset(s);
      ReconnectKeeps(Swept(s), h);
      ReassessKeeps(Swept(s), h);
    }
  }

  // The sweep of the table changes nothing but the table.
  lemma SweptIsReset(s: State)
    requires Fit(s)
    ensures Swept(s) == ResetScan(s).(table := Swept(s).table)
  {
    hide Drop, Checked;
  }

  lemma ErrorKeeps(s: State, h: seq<Act>, err: int, sq: nat, sent: bool)
    requires Inv(s, h)
    ensures var r := OnError(s, err, sq, sent); Inv(r.s, h + r.acts)
  {
    hide LastAuth, LastEapol, Requested, Orderly, IsJoin, Reassess, StartScan, Abort, Numbered;
    assert h + [] == h;
    ResetKeeps(s, h);
    AbortKeeps(s, h);
    var w := s.(auth := Idle);
    ReassessKeeps(w, h);
    StartScanKeeps(w, h, s.ap.freq, sent);
  }

  lemma EapolDoneKeeps(s: State, h: seq<Act>)
    requires Inv(s, h)
    ensures var r := OnEapolDone(s); Inv(r.s, h + r.acts)
  {
    hide LastAuth, LastEapol, Requested, Orderly, IsJoin, SaveLines, First;
    var a, b := NewKey(s.nlseq + 1), NewKey(s.nlseq + 2);
    Push(h, a);
    Push(h + [a], b);
    assert h + [a, b] == h + [a] + [b];
  }

  // r is what a scan from w makes of it, but for what is kept about the AP's frequency.
  ghost predicate IsScan(r: Result, w: State, freq: int, sent: bool) {
    var t := Scans(w, freq, sent);
    && r.acts == t.acts && r.s == t.s.(timer := true, ap := r.s.ap)
    && r.s.ap == t.s.ap.(freq := r.s.ap.freq, rescans := r.s.ap.rescans)
  }

  lemma FixedScans(s: State, sent: bool) returns (w: State, freq: int)
    requires s.timer
    ensures w == s.(ap := s.ap.(rescans := w.ap.rescans)) && IsScan(FixedScan(s, sent), w, freq, sent)
  {
    hide StartScan;
    w := s.(ap := s.ap.(rescans := s.ap.rescans + 1));
    freq := if w.ap.rescans % 6 != 0 then s.ap.freq else -1;
    ScanKeepsTimer(w, freq, sent);
  }

  // When the timer finds the station idle or connected, it starts a scan and is set again.
  lemma TimerScans(s: State, sent: bool) returns (w: State, freq: int)
    requires Fit(s)
    ensures w == s.(timer := w.timer, ap := s.ap.(rescans := w.ap.rescans))
    ensures s.auth == Idle || s.auth == Connected ==> IsScan(OnTimer(s, sent), w, freq, sent)
  {
    hide StartScan, FixedScan;
    w, freq := s.(timer := s.auth == Idle), if s.auth == Idle && s.ap.fixed then -1 else 0;
    if s.auth == Idle && s.ap.fixed && s.ap.freq != 0 {
      w, freq := FixedScans(w, sent);
    } else {
      ScanKeepsTimer(w, freq, sent);
    }
  }

  lemma ScanKeepsTimer(s: State, freq: int, sent: bool)
    ensures Scans(s, freq, sent).s.timer == s.timer && Scans(s, freq, sent).s.ap == s.ap
  {
  }

  lemma TimerKeeps(s: State, h: seq<Act>, sent: bool)
    requires Inv(s, h)
    ensures var r := OnTimer(s, sent); Inv(r.s, h + r.acts)
  {
    hide LastAuth, LastEapol, Requested, Orderly, IsJoin, StartScan, Abort, Numbered;
    assert h + [] == h;
    TimerIsFree(s, h);
    var u := s.(timer := false);
    StartScanKeeps(u, h, 0, sent);
    TimerIsFree(Scans(u, 0, sent).s, h + Scans(u, 0, sent).acts);
    AbortKeeps(u, h);
    if s.auth == Idle { ForegroundKeeps(u, h, sent); }
  }

  lemma TimerIsFree(s: State, h: seq<Act>)
    requires Inv(s, h)
    ensures Inv(s.(timer := false), h) && Inv(s.(timer := true), h)
  {
  }

  lemma ForegroundKeeps(s: State, h: seq<Act>, sent: bool)
    requires Inv(s, h) && s.auth == Idle
    ensures var r := ForegroundScan(s, sent); Inv(r.s, h + r.acts) && r.s.auth == Idle
  {
    hide Inv, StartScan;
    TimerIsFree(s, h);
    var v := s.(timer := true);
    var w := v.(ap := s.ap.(rescans := s.ap.rescans + 1));
    IdleKeeps(v, h, w.ap);
    StartScanKeeps(v, h, 0, sent);
    StartScanKeeps(v, h, -1, sent);
    StartScanKeeps(w, h, w.ap.freq, sent);
    StartScanKeeps(w, h, -1, sent);
    var r := if (s.ap.rescans + 1) % 6 != 0 then Scans(w, w.ap.freq, sent) else Scans(w, -1, sent);
    IdleKeeps(r.s, h + r.acts, r.s.ap.(freq := 0, rescans := 0));
  }

  lemma IdleKeeps(s: State, h: seq<Act>, ap: Ap)
    requires Inv(s, h) && s.auth == Idle
    ensures Inv(s.(ap := ap), h)
  {
  }

  lemma RfRestoredKeeps(s: State, h: seq<Act>, sent: bool)
    requires Inv(s, h)
    ensures var r := OnRfRestored(s, sent); Inv(r.s, h + r.acts)
  {
    hide LastAuth, LastEapol, Requested, Orderly, IsJoin, StartScan, Reassess, Numbered;
    assert h + [] == h;
    var w := s.(rfkilled := false, auth := Idle);
    var x := w.(ap := w.ap.(success := false), mode := Rescan);
    ReassessKeeps(w, h);
    StartScanKeeps(x, h, x.ap.freq, sent);
  }

  lemma UserConnectKeeps(s: State, h: seq<Act>, ssid: Option<seq<Octet>>, psk: Option<seq<Octet>>)
    requires Inv(s, h)
    ensures var r := OnUserConnect(s, ssid, psk); Inv(r.s, h + r.acts)
  {
    hide LastAuth, LastEapol, Requested, Orderly, IsJoin, Reassess, Numbered, Configure;
    assert h + [] == h;
    if s.auth == Idle && s.scan == NoScan {
      ConfigureIsQuiet(s, ssid, psk);
      ReassessKeeps(Configure(s, ssid, psk).s.(mode := OneShot, timer := false), h);
    }
  }

  lemma ConfigureIsQuiet(s: State, ssid: Option<seq<Octet>>, psk: Option<seq<Octet>>)
    requires Fit(s)
    ensures var t := Configure(s, ssid, psk); t.s == s.(ap := t.s.ap, psk := t.s.psk, table := t.s.table)
  {
    hide LoadOver, LoadLines, LoadCode, FreshSlot;
  }

  ghost predicate FromUser(e: Event) { e.UserConnect? || e.UserNeutral? || e.UserScan? || e.UserForget? || e.SigTerm? }

  lemma UserKeeps(s: State, h: seq<Act>, e: Event)
    requires Inv(s, h) && FromUser(e)
    ensures var r := Step(s, e); Inv(r.s, h + r.acts)
  {
    hide LastAuth, LastEapol, Requested, Orderly, IsJoin, StartScan, StartDisconnect, OnUserConnect, Numbered,
         DropLines, Entries, Forgotten;
    assert h + [] == h;
    match e {
      case UserConnect(ssid, psk) => UserConnectKeeps(s, h, ssid, psk);
      case UserNeutral => StartDisconnectKeeps(s.(mode := Neutral), h);
      case UserScan(sent) => StartScanKeeps(s, h, 0, sent);
      case UserForget(name) =>
      case SigTerm => SigTermKeeps(s, h);
    }
  }

  lemma SigTermKeeps(s: State, h: seq<Act>)
    requires Inv(s, h)
    ensures var r := OnSigTerm(s); Inv(r.s, h + r.acts)
  {
    hide Inv, StartDisconnect;
    assert h + [] == h;
    var t := StartDisconnect(s);
    StartDisconnectKeeps(s, h);
    ModeIsFree(t.s, h + t.acts, if t.ok then ExitReq else Exit);
    ModeIsFree(s, h, Exit);
    QuitKeeps(s, h);
  }

  lemma ModeIsFree(s: State, h: seq<Act>, mode: Mode)
    requires Inv(s, h)
    ensures Inv(s.(mode := mode), h)
  {
  }

  // The disconnect of a second request.
  lemma QuitKeeps(s: State, h: seq<Act>)
    requires Inv(s, h)
    ensures Inv(s.(mode := Exit, nlseq := s.nlseq + 1), h + [Disconnect(s.nlseq + 1)])
  {
    hide LastAuth, LastEapol, Requested, Orderly, IsJoin;
    Push(h, Disconnect(s.nlseq + 1));
  }

  lemma RekeyKeeps(s: State, h: seq<Act>)
    requires Inv(s, h)
    ensures Inv(s.(nlseq := s.nlseq + 1), h + [NewKey(s.nlseq + 1)])
  {
    hide LastAuth, LastEapol, Requested, Orderly, IsJoin;
    Push(h, NewKey(s.nlseq + 1));
  }

  lemma TableKeeps(s: State, h: seq<Act>, freqs: seq<int>, report: Report)
    requires Inv(s, h)
    ensures Inv(s.(table := Mark(s.table, freqs)), h) && Inv(s.(table := Take(s.table, report)), h)
  {
    hide LastAuth, LastEapol, Requested, Orderly, IsJoin, Grab, Reported, Marked, Numbered;
  }

  ghost predicate AboutScans(e: Event) {
    e.CardTrigger? || e.CardResult? || e.CardScanDone? || e.CardScanAborted? || e.CardDone? || e.CardError?
  }

  ghost predicate AboutConnection(e: Event) {
    e.CardAuthenticate? || e.CardAssociate? || e.CardConnect? || e.CardDisconnect?
  }

  lemma ScansKeep(s: State, h: seq<Act>, e: Event)
    requires Inv(s, h) && AboutScans(e)
    ensures var r := Step(s, e); Inv(r.s, h + r.acts)
  {
    assert Fit(s);
    hide Inv, OnDone, OnError, TriggerDump, ResetScan, Mark, Take;
    assert h + [] == h;
    match e {
      case CardTrigger(freqs) => TableKeeps(s, h, freqs, Report(ZERO_MAC, 0, 0, []));
      case CardResult(report) => TableKeeps(s, h, [], report);
      case CardScanDone(sent) => if s.scan == Scanning { TriggerDumpKeeps(s, h, sent); }
      case CardScanAborted => ResetKeeps(s, h);
      case CardDone => DoneKeeps(s, h);
      case CardError(err, sq, sent) => ErrorKeeps(s, h, err, sq, sent);
    }
  }

  lemma ConnectionKeeps(s: State, h: seq<Act>, e: Event)
    requires Inv(s, h) && AboutConnection(e)
    ensures var r := Step(s, e); Inv(r.s, h + r.acts)
  {
    assert Fit(s);
    hide Inv, OnAuthenticate, OnAssociate, OnConnect, OnDisconnect;
    match e {
      case CardAuthenticate(sent) => AuthenticateKeeps(s, h, sent);
      case CardAssociate(aborted, sent) => AssociateKeeps(s, h, aborted, sent);
      case CardConnect(sent) => ConnectedKeeps(s, h, sent);
      case CardDisconnect(sent) => DisconnectKeeps(s, h, sent);
    }
  }

  lemma StepKeeps(s: State, h: seq<Act>, e: Event)
    requires Inv(s, h)
    ensures var r := Step(s, e); Inv(r.s, h + r.acts)
  {
    assert Fit(s);
    if FromUser(e) {
      UserKeeps(s, h, e);
    } else if AboutScans(e) {
      ScansKeep(s, h, e);
    } else if AboutConnection(e) {
      ConnectionKeeps(s, h, e);
    } else {
      hide Inv, OnEapolDone, OnTimer, OnRfRestored, Abort;
      assert h + [] == h;
      match e {
        case EapolAborts => AbortKeeps(s, h);
        case EapolDone => EapolDoneKeeps(s, h);
        case EapolRekeyed => RekeyKeeps(s, h);
        case Timer(sent) => TimerKeeps(s, h, sent);
        case RfKilled => RfKilledKeeps(s, h);
        case RfRestored(sent) => RfRestoredKeeps(s, h, sent);
      }
    }
  }

  lemma RfKilledKeeps(s: State, h: seq<Act>)
    requires Inv(s, h)
    ensures Inv(s.(rfkilled := true, timer := false), h)
  {
  }

  // ---- Whole runs ----

  ghost predicate Fresh(s: State) { Fit(s) && s.auth == Idle && ScanInv(s, []) && s.scan == NoScan }

  ghost function Run(s: State, es: seq<Event>): (r: Result)
    requires Fit(s)
    ensures Fit(r.s)
  {
    if es == [] then Result(s, [])
    else
      var p := Run(s, es[..|es| - 1]);
      var r := Step(p.s, es[|es| - 1]);
      Result(r.s, p.acts + r.acts)
  }

  lemma {:induction false} RunKeeps(s: State, es: seq<Event>)
    requires Fresh(s)
    ensures Inv(Run(s, es).s, Run(s, es).acts)
  {
    hide Step;
    if es != [] {
      RunKeeps(s, es[..|es| - 1]);
      var p := Run(s, es[..|es| - 1]);
      StepKeeps(p.s, p.acts, es[|es| - 1]);
    }
  }

  lemma {:induction false} OrderlyAt(h: seq<Act>, k: nat)
    requires Orderly(h) && k < |h|
    ensures h[k].Associate? ==> LastAuth(h[..k]) == Some(h[k].who)
    ensures h[k].EapolAllow? ==> LastEapol(h[..k]) == Some(EapolPrime)
  {
    hide LastAuth, LastEapol;
    if k < |h| - 1 {
      OrderlyAt(h[..|h| - 1], k);
      assert h[..|h| - 1][..k] == h[..k];
    }
  }

  // In every run, while an attempt is under way the AP, its SSID and frequency, the PSK
  // and the group cipher are those of the AUTHENTICATE that opened it, and every
  // ASSOCIATE ever sent named what the last AUTHENTICATE before it named.
  lemma OneApPerAttempt(s: State, es: seq<Event>)
    requires Fresh(s)
    ensures var r := Run(s, es);
      && (InAttempt(r.s.auth) ==> LastAuth(r.acts) == Some(Who(r.s)))
      && forall k: nat :: k < |r.acts| && r.acts[k].Associate? ==> LastAuth(r.acts[..k]) == Some(r.acts[k].who)
  {
    hide LastAuth, Orderly;
    RunKeeps(s, es);
    var r := Run(s, es);
    forall k: nat | k < |r.acts| && r.acts[k].Associate?
      ensures LastAuth(r.acts[..k]) == Some(r.acts[k].who)
    {
      OrderlyAt(r.acts, k);
    }
  }

  // In every run, packets are allowed out only when the last call into the EAPOL code
  // was the one that primed it: once per priming, and never after a reset.
  lemma AllowFollowsPrime(s: State, es: seq<Event>, k: nat)
    requires Fresh(s) && k < |Run(s, es).acts| && Run(s, es).acts[k].EapolAllow?
    ensures LastEapol(Run(s, es).acts[..k]) == Some(EapolPrime)
  {
    hide Run, LastEapol, Orderly;
    RunKeeps(s, es);
    OrderlyAt(Run(s, es).acts, k);
  }

  // In every run the request word is the join of the requests accepted since the current
  // scan was triggered; with no scan under way it is empty and no command has its number.
  lemma RequestsAreJoined(s: State, es: seq<Event>)
    requires Fresh(s)
    ensures var r := Run(s, es);
      if r.s.scan.NoScan? then r.s.req == NOTHING && r.s.scanseq == 0
      else IsJoin(r.s.req, Requested(r.acts)) && r.s.scanseq > 0
  {
    hide Run, Requested, IsJoin;
    RunKeeps(s, es);
  }

  // So the end of a dump, and nothing else, answers the requests: the sweep is followed by
  // a reconnect exactly when a request asked for one, by a fresh choice exactly when none
  // did but one asked to connect.
  lemma DoneAnswersRequests(s: State, es: seq<Event>)
    requires Fresh(s)
    ensures var r := Run(s, es);
      Step(r.s, CardDone) ==
        if r.s.scan != Dumping then Result(r.s, [])
        else if AnyReconnect(Requested(r.acts)) then Reconnect(Swept(r.s))
        else if AnyConnect(Requested(r.acts)) then Reassess(Swept(r.s))
        else Result(Swept(r.s), [])
  {
    hide Run, Requested, AnyReconnect, AnyConnect, Reconnect, Reassess, Swept;
    RunKeeps(s, es);
  }

  // An error that answers a command which is not about scans is never taken for a scan
  // error: it leaves the scan alone, or goes to the connection machine.
  lemma CommandErrorsSpareScans(s: State, es: seq<Event>, k: nat, err: int, sent: bool)
    requires Fresh(s) && k < |Run(s, es).acts| && Command(Run(s, es).acts[k]) && err != -ENETDOWN
    ensures var r := Run(s, es);
      Step(r.s, CardError(err, r.acts[k].sq, sent))
        == if r.s.auth == Idle then Result(r.s, []) else OnAuthError(r.s, err, sent)
  {
    hide Run, OnAuthError, LastAuth, LastEapol, Orderly, ScanInv;
    RunKeeps(s, es);
  }

  // ---- Opening an attempt ----

  // The last command of r opens an attempt at the AP r leaves selected, and no other does.
  ghost predicate OpensOne(r: Result) {
    && |r.acts| > 0 && r.acts[|r.acts| - 1] == Authenticate(r.s.nlseq, Who(r.s))
    && (forall k :: 0 <= k < |r.acts| - 1 ==> !r.acts[k].Authenticate?)
    && r.s.auth == Authenticating && r.s.scan == NoScan
  }

  // r opens nothing, or opens one attempt and could.
  ghost predicate OpensWhen(r: Result, could: bool) {
    if could && OpensOne(r) then true else forall k :: 0 <= k < |r.acts| ==> !r.acts[k].Authenticate?
  }

  predicate BothIdle(s: State) { s.auth == Idle && s.scan == NoScan }

  lemma ScanOpensNothing(s: State, freq: int, sent: bool)
    ensures OpensWhen(Scans(s, freq, sent), false)
  {
  }

  lemma ConnectionOpens(s: State)
    ensures var t := StartConnection(s); OpensWhen(Result(t.s, t.acts), BothIdle(s)) && (t.ok ==> t.acts != [])
  {
  }

  // Selecting an AP leaves the machines alone.
  lemma PickIsQuiet(s: State, i: nat)
    requires Fit(s) && i < NSCANS
    ensures var t := SetCurrentAp(s, i); t.s == s.(ap := t.s.ap, psk := t.s.psk, table := t.s.table)
  {
    hide LoadOver, LoadLines, LoadCode;
  }

  lemma {:induction false} SearchOpens(s: State)
    requires Fit(s)
    ensures var t := ConnectToSomething(s); OpensWhen(Result(t.s, t.acts), BothIdle(s))
    decreases GoodCount(s.table.slots, s.table.n)
  {
    hide SetCurrentAp, StartConnection, OpensWhen, GoodCount;
    var i := Best(s.table.slots, s.table.n, FilterOf(s.ap));
    if i < 0 {
      NothingOpens(s, BothIdle(s));
    } else {
      TurnCostsGood(s, i);
      PickIsQuiet(s, i);
      var t := SetCurrentAp(s, i);
      var c := StartConnection(t.s);
      var r := ConnectToSomething(NotGood(t.s, i));
      ConnectionOpens(t.s);
      PickFirst(i, Result(c.s, c.acts), BothIdle(s));
      SearchOpens(NotGood(t.s, i));
      PickFirst(i, Result(r.s, r.acts), BothIdle(s));
    }
  }

  lemma NothingOpens(s: State, could: bool)
    ensures OpensWhen(Result(s, []), could)
  {
  }

  lemma PickFirst(i: nat, r: Result, could: bool)
    requires OpensWhen(r, could)
    ensures OpensWhen(Result(r.s, [Picked(i)] + r.acts), could)
  {
    var l := [Picked(i)] + r.acts;
    assert forall k :: 0 < k < |l| ==> l[k] == r.acts[k - 1];
  }

  lemma ReassessOpens(s: State)
    requires Fit(s)
    ensures OpensWhen(Reassess(s), BothIdle(s))
  {
    hide ConnectToSomething;
    SearchOpens(s);
    SearchFails(s);
  }

  // A search that fails sends nothing.
  lemma {:induction false} SearchFails(s: State)
    requires Fit(s)
    ensures var t := ConnectToSomething(s); !t.ok ==> forall k :: 0 <= k < |t.acts| ==> t.acts[k].Picked?
    decreases GoodCount(s.table.slots, s.table.n)
  {
    hide SetCurrentAp, StartConnection;
    var i := Best(s.table.slots, s.table.n, FilterOf(s.ap));
    if i >= 0 {
      TurnCostsGood(s, i);
      SearchFails(NotGood(SetCurrentAp(s, i).s, i));
    }
  }

  lemma AbortOpens(s: State)
    requires Fit(s)
    ensures OpensWhen(Abort(s), BothIdle(s))
  {
    hide Reassess;
    ReassessOpens(s);
  }

  lemma ReconnectOpens(s: State)
    requires Fit(s)
    ensures OpensWhen(Reconnect(s), BothIdle(s))
  {
    hide Reassess, StartConnection;
    var w := if s.mode == Rescan then s.(mode := Active) else s;
    ConnectionOpens(w);
    ReassessOpens(w);
  }

  lemma DisconnectOpens(s: State, sent: bool)
    requires Fit(s)
    ensures OpensWhen(HandleDisconnect(s, sent), BothIdle(s))
    ensures s.mode == Neutral ==> HandleDisconnect(s, sent).acts == []
  {
    hide Reassess, StartScan;
    var w := AfterLoss(s);
    var x := w.(ap := w.ap.(success := false), mode := Rescan);
    ScanOpensNothing(x, x.ap.freq, sent);
    var y := ClearBssid(w);
    ReassessOpens(if y.ap.fixed then y else ClearSsid(y));
  }

  // When an event may open an attempt: the connection machine is idle, or the event ends
  // what it was doing; and no scan is under way, or the event ends it.
  ghost predicate MayOpen(s: State, e: Event) {
    && (|| s.auth == Idle || e.CardDisconnect? || (s.auth == Disconnecting && e.CardError?)
        || (s.auth == NetDown && e.RfRestored?))
    && (s.scan == NoScan || (s.scan == Dumping && e.CardDone?))
  }

  lemma DoneOpens(s: State)
    requires Fit(s)
    ensures OpensWhen(OnDone(s), MayOpen(s, CardDone))
  {
    hide Reconnect, Reassess, CheckNew, Drop;
    if s.scan == Dumping {
      SweptIsReset(s);
      ReconnectOpens(Swept(s));
      ReassessOpens(Swept(s));
    }
  }

  lemma ErrorOpens(s: State, err: int, sq: nat, sent: bool)
    requires Fit(s)
    ensures OpensWhen(OnError(s, err, sq, sent), MayOpen(s, CardError(err, sq, sent)))
  {
    hide Reassess, Abort, StartScan;
    var w := s.(auth := Idle);
    ReassessOpens(w);
    AbortOpens(s);
    ScanOpensNothing(w, s.ap.freq, sent);
  }

  lemma LostOpens(s: State, sent: bool)
    requires Fit(s)
    ensures OpensWhen(OnDisconnect(s, sent), MayOpen(s, CardDisconnect(sent)))
  {
    hide HandleDisconnect;
    DisconnectOpens(s.(auth := Idle), sent);
  }

  lemma OutOfOrderOpensNothing(s: State, e: Event)
    requires Fit(s) && (e.CardAuthenticate? || e.CardAssociate? || e.CardConnect?)
    ensures OpensWhen(Step(s, e), false)
  {
    hide HandleDisconnect, Reassess;
    DisconnectOpens(s.(mode := Neutral, auth := External), e.sent);
  }

  lemma TimerOpens(s: State, sent: bool)
    requires Fit(s)
    ensures OpensWhen(OnTimer(s, sent), MayOpen(s, Timer(sent)))
  {
    hide Abort, StartScan, ForegroundScan, BackgroundScan;
    AbortOpens(s.(timer := false));
    var w, freq := TimerScans(s, sent);
    ScanOpensNothing(w, freq, sent);
  }

  lemma RfRestoredOpens(s: State, sent: bool)
    requires Fit(s)
    ensures OpensWhen(OnRfRestored(s, sent), MayOpen(s, RfRestored(sent)))
  {
    hide Reassess, StartScan;
    var w := s.(rfkilled := false, auth := Idle);
    ReassessOpens(w);
    var x := w.(ap := w.ap.(success := false), mode := Rescan);
    ScanOpensNothing(x, x.ap.freq, sent);
  }

  lemma UserOpens(s: State, e: Event)
    requires Fit(s) && FromUser(e)
    ensures OpensWhen(Step(s, e), MayOpen(s, e))
  {
    hide Configure, Reassess, StartScan, DropLines, Entries, Forgotten;
    match e {
      case UserConnect(ssid, psk) =>
        if s.auth == Idle && s.scan == NoScan {
          ConfigureIsQuiet(s, ssid, psk);
          ReassessOpens(Configure(s, ssid, psk).s.(mode := OneShot, timer := false));
        }
      case UserScan(sent) => ScanOpensNothing(s, 0, sent);
      case _ =>
    }
  }

  // Whatever the event, at most one attempt is opened, by its last command, with scans
  // idle; and only if the connection machine was idle or this event made it so.
  lemma OpensOnlyWhenIdle(s: State, e: Event)
    requires Fit(s)
    ensures OpensWhen(Step(s, e), MayOpen(s, e))
  {
    if FromUser(e) {
      UserOpens(s, e);
    } else if e.CardAuthenticate? || e.CardAssociate? || e.CardConnect? {
      OutOfOrderOpensNothing(s, e);
    } else {
      hide MayOpen, OnDone, OnError, OnDisconnect, OnTimer, OnRfRestored, Abort, Mark, Take, FromUser;
      match e {
        case CardDone => DoneOpens(s);
        case CardError(err, sq, sent) => ErrorOpens(s, err, sq, sent);
        case CardDisconnect(sent) => LostOpens(s, sent);
        case Timer(sent) => TimerOpens(s, sent);
        case RfRestored(sent) => RfRestoredOpens(s, sent);
        case EapolAborts => AbortOpens(s);
        case _ =>
      }
    }
  }
}

/** What disconnecting on the user's command (wifi.1, wsupp_cntrl.c:288-302) and asking
    the service to exit (wsupp.c:199-219) stop, and what they do not. */
module StationStops {
  import opened Octets
  import opened Scan
  import opened ScanTable
  import opened ApSelect
  import opened PskMap
  import opened PskText
  import opened StationSpec
  import opened StationDescents
  import opened StationPicks
  import opened StationRuns
  import opened Wrappers

  ghost predicate Attempts(acts: seq<Act>) { exists k :: 0 <= k < |acts| && acts[k].Authenticate? }

  // The end of a dump that was to reconnect finds the current AP still there.
  ghost predicate Reconnects(s: State, e: Event)
    requires Fit(s)
  {
    e.CardDone? && s.scan == Dumping && s.req.reconnect && s.auth == Idle && FindCurrent(Swept(s)) < Swept(s).table.n
  }

  lemma NoneOfOne(a: Act)
    ensures Attempts([a]) <==> a.Authenticate?
    ensures !Attempts([])
  {
    assert [a][0] == a;
  }

  lemma DoneInNeutral(s: State)
    requires Fit(s) && s.mode == Neutral
    ensures Attempts(OnDone(s).acts) <==> Reconnects(s, CardDone)
  {
    hide Attempts, FindCurrent, Drop, CheckNew;
    NoneOfOne(EapolReset);
    if s.scan == Dumping {
      SweptIsReset(s);
      var w := Swept(s);
      NoneOfOne(Authenticate(w.nlseq + 1, Who(w)));
    }
  }

  lemma ScanInNeutral(s: State, freq: int, sent: bool)
    ensures !Attempts(Scans(s, freq, sent).acts)
  {
  }

  lemma ScanningInNeutral(s: State, e: Event)
    requires Fit(s) && s.mode == Neutral && (e.Timer? || e.CardError? || e.UserScan? || e.RfRestored?)
    ensures !Attempts(Step(s, e).acts)
  {
    hide StartScan, ConnectToSomething, ForegroundScan, BackgroundScan;
    ScanInNeutral(s, 0, e.sent);
    ScanInNeutral(s.(auth := Idle), s.ap.freq, e.sent);
    if e.Timer? {
      var w, freq := TimerScans(s, e.sent);
      ScanInNeutral(w, freq, e.sent);
    }
  }

  lemma OthersInNeutral(s: State, e: Event)
    requires Fit(s) && s.mode == Neutral && !e.UserConnect? && !e.CardDone?
    ensures !Attempts(Step(s, e).acts)
  {
    if e.Timer? || e.CardError? || e.UserScan? || e.RfRestored? {
      ScanningInNeutral(s, e);
    } else {
      hide ConnectToSomething, Take, Mark, DropLines, Entries, Forgotten, Noted, Saved;
    }
  }

  // After the user has asked to disconnect, only one thing short of a new connect command
  // opens an attempt: the end of a scan that was started to reconnect. It does so exactly
  // when the current AP is still in the table.
  lemma NeutralOpens(s: State, e: Event)
    requires Fit(s) && s.mode == Neutral && !e.UserConnect?
    ensures Attempts(Step(s, e).acts) <==> Reconnects(s, e)
  {
    hide Attempts, OnDone, Reconnects;
    if e.CardDone? {
      DoneInNeutral(s);
    } else {
      OthersInNeutral(s, e);
      assert !Reconnects(s, e) by { NotDone(s, e); }
    }
  }

  lemma NotDone(s: State, e: Event)
    requires Fit(s) && !e.CardDone?
    ensures !Reconnects(s, e)
  {
  }

  // ---- A shutdown request (wsupp.c:199-219) ----

  // The station waits for the disconnect it asked for before it exits. If the card answers
  // the command with an error instead, the station forgets about exiting and looks for an
  // AP: it opens an attempt exactly when no scan is under way and some slot is usable.
  lemma RefusedDisconnectOpens(s: State, err: int, sq: nat, sent: bool)
    requires Fit(s) && s.mode == ExitReq && s.auth == Disconnecting
    requires err != -ENETDOWN && sq != s.scanseq
    ensures var r := Step(s, CardError(err, sq, sent));
      r.s.mode == ExitReq && (Attempts(r.acts) <==> s.scan == NoScan && AnyUsable(s.(auth := Idle)))
  {
    hide ConnectToSomething, AnyUsable, Attempts;
    var w := s.(auth := Idle);
    NoneOfOne(EapolReset);
    if s.scan == NoScan {
      SearchStarts(w);
      FailureIsQuiet(w);
      SearchKeepsMode(w);
      SearchAttempts(w);
    }
  }

  // A search sends AUTHENTICATE exactly when it succeeds.
  lemma {:induction false} SearchAttempts(s: State)
    requires Fit(s)
    ensures Attempts(ConnectToSomething(s).acts) <==> ConnectToSomething(s).ok
    decreases GoodCount(s.table.slots, s.table.n)
  {
    hide SetCurrentAp, Attempts;
    NoneOfOne(EapolReset);
    var i := Best(s.table.slots, s.table.n, FilterOf(s.ap));
    if i >= 0 {
      var t := SetCurrentAp(s, i);
      var c := StartConnection(t.s);
      TurnCostsGood(s, i);
      NoneOfOne(Picked(i));
      AttemptsOfTwo(t.acts, c.acts);
      NoneOfOne(Authenticate(t.s.nlseq + 1, Who(t.s)));
      var r := ConnectToSomething(NotGood(t.s, i));
      SearchAttempts(NotGood(t.s, i));
      AttemptsOfTwo(t.acts, r.acts);
    }
  }

  lemma AttemptsOfTwo(a: seq<Act>, b: seq<Act>)
    ensures Attempts(a + b) <==> Attempts(a) || Attempts(b)
  {
    if Attempts(a) {
      var k :| 0 <= k < |a| && a[k].Authenticate?;
      assert (a + b)[k].Authenticate?;
    }
    if Attempts(b) {
      var k :| 0 <= k < |b| && b[k].Authenticate?;
      assert (a + b)[|a| + k].Authenticate?;
    }
    if Attempts(a + b) {
      var k :| 0 <= k < |a + b| && (a + b)[k].Authenticate?;
      assert if k < |a| then a[k].Authenticate? else b[k - |a|].Authenticate?;
    }
  }

  // The events that end a station asked to exit: the notification it waits for, a second
  // request, or the timer while the network is down and not by rfkill.
  predicate EndsIt(s: State, e: Event) {
    || (e.CardDisconnect? && s.auth != Idle)
    || e.SigTerm?
    || (e.Timer? && s.auth == NetDown && !s.rfkilled)
  }

  // The events that make it forget: the user's disconnect, another supplicant's doing, or
  // a connect command that is carried out.
  ghost predicate ForgetsIt(s: State, e: Event)
    requires Fit(s)
  {
    e.UserNeutral? || OutOfOrder(s, e) || (e.UserConnect? && ConnectCode(s, e.ssid, e.psk) == Fine)
  }

  lemma ReassessKeepsMode(s: State)
    requires Fit(s)
    ensures s.mode != OneShot ==> Reassess(s).s.mode == s.mode
    ensures s.mode == OneShot ==> Reassess(s).s.mode == OneShot || Reassess(s).s.mode == Neutral
  {
    hide ConnectToSomething;
    SearchKeepsMode(s);
  }

  lemma ScanKeepsMode(s: State, freq: int, sent: bool)
    ensures Scans(s, freq, sent).s.mode == s.mode
  {
  }

  // From s to t a request to exit is met, forgotten or stands.
  predicate Fate(s: State, t: State, met: bool, forgotten: bool) {
    && (t.mode == Exit <==> met)
    && (t.mode == Neutral || t.mode == OneShot <==> forgotten)
    && (t.mode == ExitReq <==> !met && !forgotten)
  }

  lemma ConnectionEventFate(s: State, e: Event)
    requires Fit(s) && s.mode == ExitReq && AboutConnection(e)
    ensures Fate(s, Step(s, e).s, EndsIt(s, e), ForgetsIt(s, e))
  {
    hide Reassess, Configure;
    ReassessKeepsMode(s);
  }

  lemma DoneFate(s: State)
    requires Fit(s) && s.mode == ExitReq
    ensures OnDone(s).s.mode == ExitReq
  {
    hide Reassess, CheckNew, Drop, FindCurrent;
    if s.scan == Dumping {
      SweptIsReset(s);
      ReassessKeepsMode(Swept(s));
    }
  }

  lemma ErrorFate(s: State, err: int, sq: nat, sent: bool)
    requires Fit(s) && s.mode == ExitReq
    ensures OnError(s, err, sq, sent).s.mode == ExitReq
  {
    hide Reassess, StartScan;
    ReassessKeepsMode(s);
    ReassessKeepsMode(s.(auth := Idle));
    ScanKeepsMode(s.(auth := Idle), s.ap.freq, sent);
  }

  lemma TimerFate(s: State, sent: bool)
    requires Fit(s) && s.mode == ExitReq
    ensures Fate(s, OnTimer(s, sent).s, EndsIt(s, Timer(sent)), false)
  {
    hide Reassess, StartScan, ForegroundScan, BackgroundScan;
    ReassessKeepsMode(s.(timer := false));
    var w, freq := TimerScans(s, sent);
    ScanKeepsMode(w, freq, sent);
  }

  lemma UserFate(s: State, e: Event)
    requires Fit(s) && s.mode == ExitReq && FromUser(e)
    ensures Fate(s, Step(s, e).s, EndsIt(s, e), ForgetsIt(s, e))
  {
    hide OnUserConnect, ConnectCode, StartScan, DropLines, Entries, Forgotten;
    match e {
      case UserConnect(ssid, psk) => UserConnectFate(s, ssid, psk);
      case UserScan(sent) => ScanKeepsMode(s, 0, sent);
      case _ =>
    }
  }

  lemma UserConnectFate(s: State, ssid: Option<seq<Octet>>, psk: Option<seq<Octet>>)
    requires Fit(s) && s.mode == ExitReq
    ensures Fate(s, OnUserConnect(s, ssid, psk).s, false, ConnectCode(s, ssid, psk) == Fine)
  {
    hide Reassess, Configure;
    if s.auth == Idle && s.scan == NoScan {
      ConfigureIsQuiet(s, ssid, psk);
      ReassessKeepsMode(Configure(s, ssid, psk).s.(mode := OneShot, timer := false));
    }
  }

  // A request to exit is met, forgotten, or stands, each exactly when.
  lemma ShutdownFate(s: State, e: Event)
    requires Fit(s) && s.mode == ExitReq
    ensures var t := Step(s, e).s;
      && (t.mode == Exit <==> EndsIt(s, e))
      && (t.mode == Neutral || t.mode == OneShot <==> ForgetsIt(s, e))
      && (t.mode == ExitReq <==> !EndsIt(s, e) && !ForgetsIt(s, e))
  {
    if FromUser(e) {
      UserFate(s, e);
    } else if AboutConnection(e) {
      ConnectionEventFate(s, e);
    } else {
      hide OnDone, OnError, OnTimer, Reassess, Take, Mark, Noted, Saved, Configure, StartScan;
      ReassessKeepsMode(s);
      ReassessKeepsMode(s.(rfkilled := false, auth := Idle));
      match e {
        case CardDone => DoneFate(s);
        case CardError(err, sq, sent) => ErrorFate(s, err, sq, sent);
        case Timer(sent) => TimerFate(s, sent);
        case EapolDone => NotedKeepsMode(s);
        case _ =>
      }
    }
  }

  lemma NotedKeepsMode(s: State)
    requires Fit(s) && s.mode == ExitReq
    ensures OnEapolDone(s).s.mode == ExitReq
  {
    hide FindCurrent, SaveLines;
  }
}

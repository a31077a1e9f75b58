/** How long a session lasts: from the card's answer to AUTHENTICATE on, as long as the
    connection machine stays associating, connecting or connected, the AP, the PSK and the
    cipher stay those of that AUTHENTICATE. */
module StationSessions {
  import opened Octets
  import opened Scan
  import opened ScanTable
  import opened ApSelect
  import opened PskText
  import opened PskMap
  import opened StationSpec
  import opened StationRuns
  import opened Wrappers

  predicate InSession(a: Auth) { a.Associating? || a.Connecting? || a.Connected? }

  // Opens no attempt and calls nothing of the EAPOL code.
  ghost predicate Silent(acts: seq<Act>) { forall k :: 0 <= k < |acts| ==> !acts[k].Authenticate? && !ForEapol(acts[k]) }

  // From s to r a session goes on.
  ghost predicate GoesOn(s: State, r: Result) { InSession(s.auth) && Who(r.s) == Who(s) && Silent(r.acts) }

  // How a session comes to be, and to go on.
  ghost predicate Continues(s: State, e: Event, r: Result) {
    || GoesOn(s, r)
    || (e.CardAuthenticate? && s.auth == Authenticating && Who(r.s) == Who(s)
        && |r.acts| == 2 && r.acts[0] == EapolPrime && Silent(r.acts[1..]))
    || (e.CardAssociate? && s.auth == Associating && Who(r.s) == Who(s)
        && r.acts != [] && r.acts[0] == EapolAllow && Silent(r.acts[1..]))
    || (e.CardConnect? && r.acts != [] && r.acts[0] == EapolReset && Silent(r.acts[1..]))
  }

  lemma SearchLeaves(s: State)
    requires Fit(s)
    ensures InSession(Reassess(s).s.auth) ==> InSession(s.auth) && Reassess(s) == Result(s, [])
  {
    hide ConnectToSomething;
    if s.auth == Idle { SearchIsNone(s); }
  }

  lemma {:induction false} SearchIsNone(s: State)
    requires Fit(s) && s.auth == Idle
    ensures !InSession(ConnectToSomething(s).s.auth)
    decreases GoodCount(s.table.slots, s.table.n)
  {
    hide SetCurrentAp;
    var i := Best(s.table.slots, s.table.n, FilterOf(s.ap));
    if i >= 0 {
      PickIsQuiet(s, i);
      TurnCostsGood(s, i);
      SearchIsNone(NotGood(SetCurrentAp(s, i).s, i));
    }
  }

  lemma AbortLeaves(s: State)
    requires Fit(s)
    ensures !InSession(Abort(s).s.auth)
  {
    hide Reassess;
    SearchLeaves(s);
  }

  lemma ScanIsSilent(s: State, freq: int, sent: bool)
    ensures var r := Scans(s, freq, sent); r.s.auth == s.auth && Who(r.s) == Who(s) && Silent(r.acts)
  {
  }

  lemma DisconnectLeaves(s: State, sent: bool)
    requires Fit(s) && !InSession(s.auth)
    ensures !InSession(HandleDisconnect(s, sent).s.auth)
    ensures s.mode == Neutral ==> HandleDisconnect(s, sent).acts == []
  {
    hide Reassess, StartScan;
    var w := AfterLoss(s);
    var x := w.(ap := w.ap.(success := false), mode := Rescan);
    ScanIsSilent(x, x.ap.freq, sent);
    var y := ClearBssid(w);
    SearchLeaves(if y.ap.fixed then y else ClearSsid(y));
  }

  lemma SnapLeaves(s: State, sent: bool)
    requires Fit(s)
    ensures !InSession(SnapDisabled(s, sent).s.auth) && SnapDisabled(s, sent).acts == [EapolReset]
  {
    hide HandleDisconnect;
    DisconnectLeaves(s.(mode := Neutral, auth := External), sent);
  }

  lemma LossLeaves(s: State, sent: bool)
    requires Fit(s)
    ensures var r := OnDisconnect(s, sent); InSession(r.s.auth) ==> GoesOn(s, r)
  {
    hide HandleDisconnect;
    DisconnectLeaves(s.(auth := Idle), sent);
  }

  lemma AbortIsSilent(s: State)
    requires Fit(s) && InSession(s.auth)
    ensures Silent(Abort(s).acts) && Who(Abort(s).s) == Who(s)
  {
    hide Reassess;
  }

  lemma AssociateContinues(s: State, aborted: bool, sent: bool)
    requires Fit(s)
    ensures var r := OnAssociate(s, aborted, sent);
      InSession(r.s.auth) ==> Continues(s, CardAssociate(aborted, sent), r)
  {
    hide SnapDisabled, Abort;
    SnapLeaves(s, sent);
    if s.auth == Associating {
      AbortIsSilent(s);
      assert OnAssociate(s, aborted, sent).acts[1..] == if aborted then Abort(s).acts else [];
    }
  }

  lemma ConnectionEventContinues(s: State, e: Event)
    requires Fit(s) && AboutConnection(e)
    ensures var r := Step(s, e); InSession(r.s.auth) ==> Continues(s, e, r)
  {
    hide SnapDisabled, OnDisconnect, OnAssociate;
    if e.CardAssociate? {
      AssociateContinues(s, e.aborted, e.sent);
    } else if e.CardDisconnect? {
      LossLeaves(s, e.sent);
    } else {
      SnapLeaves(s, e.sent);
    }
  }

  lemma DoneContinues(s: State)
    requires Fit(s)
    ensures var r := OnDone(s); InSession(r.s.auth) ==> GoesOn(s, r)
  {
    hide Reassess, CheckNew, Drop, FindCurrent;
    if s.scan == Dumping {
      SweptIsReset(s);
      var u := Swept(s);
      SearchLeaves(u);
      SearchLeaves(if u.mode == Rescan then u.(mode := Active) else u);
    }
  }

  lemma ErrorContinues(s: State, err: int, sq: nat, sent: bool)
    requires Fit(s)
    ensures var r := OnError(s, err, sq, sent); InSession(r.s.auth) ==> GoesOn(s, r)
  {
    hide Reassess, Abort, StartScan;
    AbortLeaves(s);
    SearchLeaves(s.(auth := Idle));
    ScanIsSilent(s.(auth := Idle), s.ap.freq, sent);
  }

  lemma TimerContinues(s: State, sent: bool)
    requires Fit(s)
    ensures var r := OnTimer(s, sent); InSession(r.s.auth) ==> GoesOn(s, r)
  {
    hide Abort, StartScan, ForegroundScan;
    AbortLeaves(s.(timer := false));
    if s.auth == Connected {
      ScanIsSilent(s.(timer := false), 0, sent);
    } else {
      var w, freq := TimerScans(s, sent);
      ScanIsSilent(w, freq, sent);
    }
  }

  lemma RfRestoredContinues(s: State, sent: bool)
    requires Fit(s)
    ensures var r := OnRfRestored(s, sent); InSession(r.s.auth) ==> GoesOn(s, r)
  {
    hide Reassess, StartScan;
    var w := s.(rfkilled := false, auth := Idle);
    SearchLeaves(w);
    var x := w.(ap := w.ap.(success := false), mode := Rescan);
    ScanIsSilent(x, x.ap.freq, sent);
  }

  lemma UserConnectContinues(s: State, ssid: Option<seq<Octet>>, psk: Option<seq<Octet>>)
    requires Fit(s)
    ensures var r := OnUserConnect(s, ssid, psk); InSession(r.s.auth) ==> GoesOn(s, r)
  {
    hide Reassess, Configure;
    if s.auth == Idle && s.scan == NoScan {
      ConfigureIsQuiet(s, ssid, psk);
      SearchLeaves(Configure(s, ssid, psk).s.(mode := OneShot, timer := false));
    }
  }

  lemma UserContinues(s: State, e: Event)
    requires Fit(s) && FromUser(e)
    ensures var r := Step(s, e); InSession(r.s.auth) ==> GoesOn(s, r)
  {
    hide OnUserConnect, OnForget, OnUserNeutral, OnSigTerm, StartScan;
    match e {
      case UserConnect(ssid, psk) => UserConnectContinues(s, ssid, psk);
      case UserScan(sent) => ScanIsSilent(s, 0, sent);
      case UserForget(name) => ForgetIsSilent(s, name);
      case UserNeutral => NeutralLeaves(s);
      case SigTerm => ExitLeaves(s);
    }
  }

  lemma NeutralLeaves(s: State)
    ensures !InSession(OnUserNeutral(s).s.auth)
  {
  }

  lemma ExitLeaves(s: State)
    ensures var r := OnSigTerm(s); InSession(r.s.auth) ==> GoesOn(s, r)
  {
  }

  lemma ForgetIsSilent(s: State, name: seq<Octet>)
    requires Fit(s)
    ensures var r := OnForget(s, name); r.s.auth == s.auth && Who(r.s) == Who(s) && r.acts == []
  {
    hide Entries, DropLines, Forgotten;
  }

  lemma ConnectedContinues(s: State)
    requires Fit(s)
    ensures var r := OnEapolDone(s); InSession(r.s.auth) ==> GoesOn(s, r)
  {
    hide FindCurrent, SaveLines;
  }

  // After every event, a station in a session was in it before with the same AP, PSK and
  // cipher and did nothing to the EAPOL code; or the session begins, with a priming; or
  // packets are allowed out; or the card reports a connection out of order, and the EAPOL
  // code is reset.
  lemma SessionStep(s: State, e: Event)
    requires Fit(s) && InSession(Step(s, e).s.auth)
    ensures Continues(s, e, Step(s, e))
  {
    if AboutConnection(e) {
      ConnectionEventContinues(s, e);
    } else if FromUser(e) {
      UserContinues(s, e);
    } else {
      hide OnDone, OnError, OnTimer, OnRfRestored, OnEapolDone, Abort, Take, Mark;
      match e {
        case CardDone => DoneContinues(s);
        case CardError(err, sq, sent) => ErrorContinues(s, err, sq, sent);
        case Timer(sent) => TimerContinues(s, sent);
        case RfRestored(sent) => RfRestoredContinues(s, sent);
        case EapolAborts => AbortLeaves(s);
        case EapolDone => ConnectedContinues(s);
        case _ =>
      }
    }
  }
}

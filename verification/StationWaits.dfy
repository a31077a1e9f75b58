/** What the station waits for when it does nothing (wsupp.c:165-197, 244): a message from
    the card, its timer, the end of an rfkill, or the user. When it wants a connection and
    waits for the user alone it is stuck; exactly which events bring that about, and which
    end it. */
module StationWaits {
  import opened Octets
  import opened Scan
  import opened ScanTable
  import opened ApSelect
  import opened PskText
  import opened PskMap
  import opened StationSpec
  import opened StationRuns
  import opened StationPicks
  import opened Wrappers

  // The modes in which the station is to get somewhere by itself.
  predicate Wants(m: Mode) { m != Neutral && m != Exit }

  predicate Stuck(s: State) { s.auth == Idle && s.scan == NoScan && !s.timer && Wants(s.mode) }

  // At most a scan is under way.
  predicate Unattended(s: State) { s.auth == Idle && !s.timer && Wants(s.mode) }

  // A scan ends, and nobody asked for anything to be done then.
  predicate EndsInVain(s: State, e: Event) {
    || (s.scan == Scanning && (e.CardScanAborted? || (e.CardScanDone? && !e.sent)))
    || (s.scan == Dumping && e.CardDone? && !s.req.reconnect && !s.req.connect)
    || (s.scan != NoScan && e.CardError? && e.err != -ENETDOWN && e.sq == s.scanseq && e.err != 0)
  }

  // The AP is lost while the user's one command is tried, or the scan for it is not sent.
  predicate LostForGood(s: State, e: Event) {
    && e.CardDisconnect? && s.auth != Idle && s.scan == NoScan
    && (s.mode == OneShot || ((s.mode == Active || s.mode == Rescan) && s.ap.success && !e.sent))
  }

  // The network is down under rfkill: the station goes idle, and will not know when the
  // rfkill is lifted; or rfkill stops the timer of an idle station.
  predicate KilledForGood(s: State, e: Event) {
    && Wants(s.mode)
    && (|| (e.CardError? && e.err == -ENETDOWN && s.rfkilled && !s.timer)
        || (e.Timer? && s.auth == NetDown && s.rfkilled && s.scan == NoScan)
        || (e.RfKilled? && s.auth == Idle && s.scan == NoScan))
  }

  // A scan that was to bring the AP back is not sent.
  predicate NotSent(s: State, e: Event) {
    && s.scan == NoScan && !s.timer && Wants(s.mode)
    && (|| (e.CardError? && !e.sent && e.err == -ENOENT && e.sq != s.scanseq && s.auth == Authenticating)
        || (e.RfRestored? && !e.sent && s.auth == NetDown && s.mode == Rescan))
  }

  predicate GetsStuck(s: State, e: Event) {
    || (Unattended(s) && EndsInVain(s, e))
    || LostForGood(s, e) || KilledForGood(s, e) || NotSent(s, e)
  }

  // What gets a stuck station going, or out of wanting anything.
  ghost predicate Helps(s: State, e: Event)
    requires Fit(s)
  {
    || e.EapolAborts? || e.EapolDone? || e.Timer? || e.SigTerm? || e.UserNeutral?
    || e.CardAuthenticate? || e.CardAssociate? || e.CardConnect?
    || (e.UserScan? && e.sent)
    || (e.UserConnect? && ConnectCode(s, e.ssid, e.psk) == Fine)
    || (e.CardError? && e.err == -ENETDOWN && !s.rfkilled)
  }

  ghost predicate WillBeStuck(s: State, e: Event)
    requires Fit(s)
  {
    if Stuck(s) then !Helps(s, e) else GetsStuck(s, e)
  }

  // ---- Through the helpers ----

  // A reassessment opens an attempt, sets the timer or gives up wanting.
  lemma ReassessIsAttended(s: State)
    requires Fit(s)
    ensures !Stuck(Reassess(s).s)
  {
    hide ConnectToSomething;
    if s.mode != Neutral && BothIdle(s) {
      SearchOpens(s);
      SearchKeepsMode(s);
      StartedIsBusy(s);
    }
  }

  lemma {:induction false} StartedIsBusy(s: State)
    requires Fit(s)
    ensures ConnectToSomething(s).ok ==> ConnectToSomething(s).s.auth == Authenticating
    decreases GoodCount(s.table.slots, s.table.n)
  {
    hide SetCurrentAp;
    var i := Best(s.table.slots, s.table.n, FilterOf(s.ap));
    if i >= 0 {
      TurnCostsGood(s, i);
      StartedIsBusy(NotGood(SetCurrentAp(s, i).s, i));
    }
  }

  lemma AbortIsAttended(s: State)
    requires Fit(s)
    ensures !Stuck(Abort(s).s)
  {
    hide Reassess;
    ReassessIsAttended(s);
  }

  lemma ScanIsAttended(s: State, freq: int, sent: bool)
    ensures Stuck(Scans(s, freq, sent).s) <==> Stuck(s) && !sent
  {
  }

  lemma DisconnectIsAttended(s: State, sent: bool)
    requires Fit(s)
    ensures Stuck(HandleDisconnect(s, sent).s) <==>
              && s.auth == Idle && s.scan == NoScan
              && (s.mode == OneShot || ((s.mode == Active || s.mode == Rescan) && s.ap.success && !sent))
  {
    hide Reassess, StartScan;
    var w := AfterLoss(s);
    var x := w.(ap := w.ap.(success := false), mode := Rescan);
    ScanIsAttended(x, x.ap.freq, sent);
    var y := ClearBssid(w);
    ReassessIsAttended(if y.ap.fixed then y else ClearSsid(y));
  }

  // ---- Through the events ----

  lemma ConnectionEventStuck(s: State, e: Event)
    requires Fit(s) && AboutConnection(e)
    ensures Stuck(Step(s, e).s) <==> WillBeStuck(s, e)
  {
    hide HandleDisconnect, Abort;
    if e.CardDisconnect? {
      DisconnectIsAttended(s.(auth := Idle), e.sent);
    } else {
      DisconnectIsAttended(s.(mode := Neutral, auth := External), e.sent);
      AbortIsAttended(s);
    }
  }

  lemma DoneStuck(s: State)
    requires Fit(s)
    ensures Stuck(OnDone(s).s) <==> WillBeStuck(s, CardDone)
  {
    hide Reassess, CheckNew, Drop, FindCurrent;
    if s.scan == Dumping {
      SweptIsReset(s);
      var u := Swept(s);
      ReassessIsAttended(u);
      ReassessIsAttended(if u.mode == Rescan then u.(mode := Active) else u);
    }
  }

  lemma ErrorStuck(s: State, err: int, sq: nat, sent: bool)
    requires Fit(s)
    ensures Stuck(OnError(s, err, sq, sent).s) <==> WillBeStuck(s, CardError(err, sq, sent))
  {
    hide Reassess, Abort, StartScan;
    AbortIsAttended(s);
    ReassessIsAttended(s.(auth := Idle));
    ScanIsAttended(s.(auth := Idle), s.ap.freq, sent);
  }

  lemma TimerStuck(s: State, sent: bool)
    requires Fit(s)
    ensures Stuck(OnTimer(s, sent).s) <==> WillBeStuck(s, Timer(sent))
  {
    hide Abort, StartScan, ForegroundScan, BackgroundScan;
    AbortIsAttended(s.(timer := false));
    var w, freq := TimerScans(s, sent);
  }

  lemma RfRestoredStuck(s: State, sent: bool)
    requires Fit(s)
    ensures Stuck(OnRfRestored(s, sent).s) <==> WillBeStuck(s, RfRestored(sent))
  {
    hide Reassess, StartScan;
    var w := s.(rfkilled := false, auth := Idle);
    ReassessIsAttended(w);
    var x := w.(ap := w.ap.(success := false), mode := Rescan);
    ScanIsAttended(x, x.ap.freq, sent);
  }

  lemma UserConnectStuck(s: State, ssid: Option<seq<Octet>>, psk: Option<seq<Octet>>)
    requires Fit(s)
    ensures Stuck(OnUserConnect(s, ssid, psk).s) <==> WillBeStuck(s, UserConnect(ssid, psk))
  {
    hide Reassess, Configure;
    if s.auth == Idle && s.scan == NoScan {
      ConfigureIsQuiet(s, ssid, psk);
      ReassessIsAttended(Configure(s, ssid, psk).s.(mode := OneShot, timer := false));
    }
  }

  lemma UserStuck(s: State, e: Event)
    requires Fit(s) && FromUser(e)
    ensures Stuck(Step(s, e).s) <==> WillBeStuck(s, e)
  {
    hide OnUserConnect, OnUserNeutral, OnSigTerm, ConnectCode, StartScan, DropLines, Entries, Forgotten;
    match e {
      case UserConnect(ssid, psk) => UserConnectStuck(s, ssid, psk);
      case UserScan(sent) => ScanIsAttended(s, 0, sent);
      case UserNeutral => NeutralIsNotStuck(s);
      case SigTerm => ExitIsNotStuck(s);
      case _ =>
    }
  }

  lemma NeutralIsNotStuck(s: State)
    ensures !Stuck(OnUserNeutral(s).s)
  {
  }

  lemma ExitIsNotStuck(s: State)
    ensures !Stuck(OnSigTerm(s).s)
  {
  }

  // Whatever the event, the station is stuck after it exactly if it was and the event does
  // not help, or it was not and the event is one of those that get it stuck.
  lemma StuckExactly(s: State, e: Event)
    requires Fit(s)
    ensures Stuck(Step(s, e).s) <==> if Stuck(s) then !Helps(s, e) else GetsStuck(s, e)
  {
    if FromUser(e) {
      UserStuck(s, e);
    } else if AboutConnection(e) {
      ConnectionEventStuck(s, e);
    } else if e.CardTrigger? || e.CardResult? || e.CardScanDone? || e.CardScanAborted? || e.EapolRekeyed? || e.RfKilled? {
      PlainEventStuck(s, e);
    } else {
      hide WillBeStuck, OnDone, OnError, OnTimer, OnRfRestored, Abort;
      match e {
        case CardDone => DoneStuck(s);
        case CardError(err, sq, sent) => ErrorStuck(s, err, sq, sent);
        case Timer(sent) => TimerStuck(s, sent);
        case RfRestored(sent) => RfRestoredStuck(s, sent);
        case EapolAborts => AbortIsAttended(s);
        case EapolDone => ConnectedIsAttended(s);
      }
      SameAsWill(s, e);
    }
  }

  lemma SameAsWill(s: State, e: Event)
    requires Fit(s)
    ensures WillBeStuck(s, e) <==> if Stuck(s) then !Helps(s, e) else GetsStuck(s, e)
    ensures e.EapolAborts? || e.EapolDone? ==> !WillBeStuck(s, e)
  {
    hide ConnectCode;
  }

  lemma PlainEventStuck(s: State, e: Event)
    requires Fit(s)
    requires e.CardTrigger? || e.CardResult? || e.CardScanDone? || e.CardScanAborted? || e.EapolRekeyed? || e.RfKilled?
    ensures Stuck(Step(s, e).s) <==> WillBeStuck(s, e)
  {
    hide Take, Mark;
  }

  lemma ConnectedIsAttended(s: State)
    requires Fit(s)
    ensures !Stuck(OnEapolDone(s).s)
  {
    hide FindCurrent, SaveLines;
  }

  // ---- Runs ----

  ghost predicate EverStuck(s: State, es: seq<Event>)
    requires Fit(s)
  {
    Stuck(Run(s, es).s) || (es != [] && EverStuck(s, es[..|es| - 1]))
  }

  ghost predicate SomeGetsStuck(s: State, es: seq<Event>)
    requires Fit(s)
  {
    if es == [] then false
    else
      var n := |es| - 1;
      SomeGetsStuck(s, es[..n]) || GetsStuck(Run(s, es[..n]).s, es[n])
  }

  // A run ever gets stuck exactly if some event of it is one of those.
  lemma {:induction false} EverStuckExactly(s: State, es: seq<Event>)
    requires Fit(s) && !Stuck(s)
    ensures EverStuck(s, es) <==> SomeGetsStuck(s, es)
  {
    hide Step, Stuck, GetsStuck, Helps;
    if es != [] {
      var n := |es| - 1;
      EverStuckExactly(s, es[..n]);
      if !EverStuck(s, es[..n]) {
        NotStuckNow(s, es[..n]);
        StuckExactly(Run(s, es[..n]).s, es[n]);
      }
    } else {
      assert Run(s, []).s == s;
    }
  }

  lemma NotStuckNow(s: State, es: seq<Event>)
    requires Fit(s) && !EverStuck(s, es)
    ensures !Stuck(Run(s, es).s)
  {
  }

  // ---- Timers that are set ----

  // Every timer that expires was set; main itself does at first what an expired timer does
  // (wsupp.c:241).
  ghost predicate Timely(s: State, es: seq<Event>)
    requires Fit(s)
  {
    if es == [] then true
    else
      var n := |es| - 1;
      Timely(s, es[..n]) && (es[n].Timer? && n > 0 ==> Run(s, es[..n]).s.timer)
  }

  lemma {:induction false} TimelyOn(s: State, a: seq<Event>, b: seq<Event>)
    requires Fit(s) && Timely(s, a) && forall k :: 0 <= k < |b| ==> !b[k].Timer?
    ensures Timely(s, a + b)
    decreases |b|
  {
    hide Run;
    if b == [] {
      assert a + b == a;
    } else {
      var n := |b| - 1;
      TimelyOn(s, a, b[..n]);
      assert (a + b)[..|a + b| - 1] == a + b[..n];
    }
  }

  // ---- While the network is down ----

  ghost predicate DownIsAttended(s: State) { s.auth == NetDown && s.mode != Exit ==> s.timer || s.rfkilled }

  lemma ReassessKeepsDown(s: State)
    requires Fit(s)
    ensures s.auth == NetDown ==> Reassess(s).s == s
    ensures s.auth != NetDown ==> Reassess(s).s.auth != NetDown
  {
    hide ConnectToSomething;
    SearchKeepsUp(s);
  }

  lemma {:induction false} SearchKeepsUp(s: State)
    requires Fit(s)
    ensures s.auth != NetDown ==> ConnectToSomething(s).s.auth != NetDown
    decreases GoodCount(s.table.slots, s.table.n)
  {
    hide SetCurrentAp;
    var i := Best(s.table.slots, s.table.n, FilterOf(s.ap));
    if i >= 0 {
      PickIsQuiet(s, i);
      TurnCostsGood(s, i);
      SearchKeepsUp(NotGood(SetCurrentAp(s, i).s, i));
    }
  }

  lemma AbortKeepsDown(s: State)
    requires Fit(s)
    ensures s.auth == NetDown ==> Abort(s).s == s
    ensures s.auth != NetDown ==> Abort(s).s.auth != NetDown
  {
    hide Reassess;
    ReassessKeepsDown(s);
  }

  lemma ScanKeepsDown(s: State, freq: int, sent: bool)
    ensures var t := Scans(s, freq, sent).s;
      t.auth == s.auth && t.mode == s.mode && t.timer == s.timer && t.rfkilled == s.rfkilled
  {
  }

  lemma DisconnectKeepsUp(s: State, sent: bool)
    requires Fit(s) && s.auth != NetDown
    ensures HandleDisconnect(s, sent).s.auth != NetDown
  {
    hide Reassess, StartScan;
    var w := AfterLoss(s);
    var x := w.(ap := w.ap.(success := false), mode := Rescan);
    ScanKeepsDown(x, x.ap.freq, sent);
    var y := ClearBssid(w);
    ReassessKeepsDown(if y.ap.fixed then y else ClearSsid(y));
  }

  lemma ConnectionEventDown(s: State, e: Event)
    requires Fit(s) && DownIsAttended(s) && AboutConnection(e)
    ensures DownIsAttended(Step(s, e).s)
  {
    hide HandleDisconnect, Abort;
    if e.CardDisconnect? {
      DisconnectKeepsUp(s.(auth := Idle), e.sent);
    } else {
      DisconnectKeepsUp(s.(mode := Neutral, auth := External), e.sent);
    }
  }

  lemma DoneDown(s: State)
    requires Fit(s) && DownIsAttended(s)
    ensures DownIsAttended(OnDone(s).s)
  {
    hide Reassess, CheckNew, Drop, FindCurrent;
    if s.scan == Dumping {
      SweptIsReset(s);
      var u := Swept(s);
      ReassessKeepsDown(u);
      ReassessKeepsDown(if u.mode == Rescan then u.(mode := Active) else u);
    }
  }

  lemma ErrorDown(s: State, err: int, sq: nat, sent: bool)
    requires Fit(s) && DownIsAttended(s)
    ensures DownIsAttended(OnError(s, err, sq, sent).s)
  {
    hide Reassess, Abort, StartScan;
    AbortKeepsDown(s);
    ReassessKeepsDown(s.(auth := Idle));
    ScanKeepsDown(s.(auth := Idle), s.ap.freq, sent);
  }

  lemma TimerDown(s: State, sent: bool)
    requires Fit(s) && DownIsAttended(s)
    ensures DownIsAttended(OnTimer(s, sent).s)
  {
    hide Abort, StartScan, ForegroundScan, BackgroundScan;
    AbortKeepsDown(s.(timer := false));
    var w, freq := TimerScans(s, sent);
    ScanKeepsDown(w, freq, sent);
  }

  lemma RfRestoredDown(s: State, sent: bool)
    requires Fit(s) && DownIsAttended(s)
    ensures DownIsAttended(OnRfRestored(s, sent).s)
  {
    hide Reassess, StartScan;
    var w := s.(rfkilled := false, auth := Idle);
    ReassessKeepsDown(w);
    var x := w.(ap := w.ap.(success := false), mode := Rescan);
    ScanKeepsDown(x, x.ap.freq, sent);
  }

  lemma UserDown(s: State, e: Event)
    requires Fit(s) && DownIsAttended(s) && FromUser(e) && (e.UserNeutral? ==> s.mode != Exit)
    ensures DownIsAttended(Step(s, e).s)
  {
    hide Reassess, Configure, StartScan, DropLines, Entries, Forgotten;
    match e {
      case UserConnect(ssid, psk) =>
        if s.auth == Idle && s.scan == NoScan {
          ConfigureIsQuiet(s, ssid, psk);
          ReassessKeepsDown(Configure(s, ssid, psk).s.(mode := OneShot, timer := false));
        }
      case UserScan(sent) => ScanKeepsDown(s, 0, sent);
      case _ =>
    }
  }

  lemma DownStep(s: State, e: Event)
    requires Fit(s) && DownIsAttended(s) && (e.UserNeutral? ==> s.mode != Exit)
    ensures DownIsAttended(Step(s, e).s)
  {
    if FromUser(e) {
      UserDown(s, e);
    } else if AboutConnection(e) {
      ConnectionEventDown(s, e);
    } else {
      hide OnDone, OnError, OnTimer, OnRfRestored, OnEapolDone, Abort, Take, Mark;
      match e {
        case CardDone => DoneDown(s);
        case CardError(err, sq, sent) => ErrorDown(s, err, sq, sent);
        case Timer(sent) => TimerDown(s, sent);
        case RfRestored(sent) => RfRestoredDown(s, sent);
        case EapolAborts => AbortKeepsDown(s);
        case EapolDone => ConnectedDown(s);
        case _ =>
      }
    }
  }

  lemma ConnectedDown(s: State)
    requires Fit(s)
    ensures OnEapolDone(s).s.timer
  {
    hide FindCurrent, SaveLines;
  }

  // No disconnect command after the last turn of main's loop (wsupp.c:243-258), which
  // handles commands before anything that makes it the last.
  ghost predicate NoneAfterExit(s: State, es: seq<Event>)
    requires Fit(s)
  {
    if es == [] then true
    else
      var n := |es| - 1;
      NoneAfterExit(s, es[..n]) && (es[n].UserNeutral? ==> Run(s, es[..n]).s.mode != Exit)
  }

  // In every run from the start, a station whose network is down has its timer set or
  // waits for an rfkill to be lifted, unless it exits.
  lemma {:induction false} DownInEveryRun(s: State, es: seq<Event>)
    requires Fit(s) && DownIsAttended(s) && NoneAfterExit(s, es)
    ensures DownIsAttended(Run(s, es).s)
  {
    hide Step, DownIsAttended;
    if es != [] {
      DownInEveryRun(s, es[..|es| - 1]);
      DownStep(Run(s, es[..|es| - 1]).s, es[|es| - 1]);
    }
  }
}

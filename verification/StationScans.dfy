/** Scans over whole runs of the station, with anything else going on between the card's
    messages about them: which slots a sweep leaves, and when a scan that breaks off
    leaves marks behind for the next one (wsupp_netlink.c:117-122, 180-200, 489-529). */
module StationScans {
  import opened Octets
  import opened Scan
  import opened ScanTable
  import opened ApSelect
  import opened PskMap
  import opened PskText
  import opened StationSpec
  import opened StationRuns
  import opened StationPicks
  import opened StationTable
  import opened Wrappers

  // The same AP as it was last heard.
  predicate SamePlace(a: Scan, b: Scan) { b == a.(flags := b.flags) }

  ghost predicate SameMarks(t: Table, u: Table) {
    && |u.slots| == |t.slots|
    && forall k :: 0 <= k < |t.slots| ==>
         SamePlace(t.slots[k], u.slots[k]) && u.slots[k].flags.stale == t.slots[k].flags.stale
  }

  ghost predicate NoStale(t: Table) { forall k :: 0 <= k < |t.slots| ==> !t.slots[k].flags.stale }

  // ---- What leaves the marks alone ----

  lemma {:induction false} SelectionKeepsMarks(s: seq<Scan>, n: nat, f: Filter, failed: seq<bool>)
    requires n <= |s|
    ensures var u := After(s, n, f, failed);
      forall k :: 0 <= k < |s| ==> SamePlace(s[k], u[k]) && u[k].flags.stale == s[k].flags.stale
    decreases |failed|
  {
    hide Candidate, Better;
    var i := Best(s, n, f);
    if failed != [] && i != -1 {
      var t := s[i := Used(s[i], failed[0])];
      SelectionKeepsMarks(t, n, f, failed[1..]);
      assert forall k :: 0 <= k < |s| ==> SamePlace(s[k], t[k]) && t[k].flags.stale == s[k].flags.stale;
    }
  }

  lemma ChosenKeepsMarks(s: State, r: Result, failed: seq<bool>)
    requires Fit(s) && Chose(s, r, failed)
    ensures SameMarks(s.table, r.s.table)
  {
    hide After;
    SelectionKeepsMarks(s.table.slots, s.table.n, FilterOf(s.ap), failed);
  }

  lemma ReassessKeepsMarks(s: State)
    requires Fit(s)
    ensures SameMarks(s.table, Reassess(s).s.table)
  {
    hide Reassess, Chose, SameMarks;
    var failed := ReassessChooses(s);
    ChosenKeepsMarks(s, Reassess(s), failed);
  }

  lemma ConnectKeepsMarks(s: State, ssid: Option<seq<Octet>>, psk: Option<seq<Octet>>)
    requires Fit(s)
    ensures SameMarks(s.table, OnUserConnect(s, ssid, psk).s.table)
  {
    hide Reassess, Configure;
    if s.auth == Idle && s.scan == NoScan {
      ConfigureKeepsMarks(s, ssid, psk);
      ReassessKeepsMarks(Configure(s, ssid, psk).s.(mode := OneShot, timer := false));
    }
  }

  lemma ConfigureKeepsMarks(s: State, ssid: Option<seq<Octet>>, psk: Option<seq<Octet>>)
    requires Fit(s)
    ensures SameMarks(s.table, Configure(s, ssid, psk).s.table)
  {
    hide LoadOver, LoadLines, LoadCode, SameSsid;
  }

  lemma ForgetKeepsMarks(s: State, name: seq<Octet>)
    requires Fit(s)
    ensures SameMarks(s.table, OnForget(s, name).s.table)
  {
    hide DropLines, Entries;
  }

  lemma EapolDoneKeepsMarks(s: State)
    requires Fit(s)
    ensures SameMarks(s.table, OnEapolDone(s).s.table)
  {
    hide SaveLines, FindCurrent;
  }

  lemma IdleDone(s: State)
    requires Fit(s)
    ensures s.scan != Dumping ==> OnDone(s).s == s
    ensures SameMarks(s.table, s.table)
  {
  }

  // Whether an event is a mark, a report or the end of a dump.
  predicate OfScan(s: State, e: Event) {
    (e.CardTrigger? && s.scan == Scanning) || e.CardResult? || (e.CardDone? && s.scan == Dumping)
  }

  lemma OthersKeepMarks(s: State, e: Event)
    requires Fit(s) && !OfScan(s, e)
    ensures SameMarks(s.table, Step(s, e).s.table)
  {
    if Quiet(e) {
      hide Step, Chose, SameMarks;
      var failed := StepChooses(s, e);
      ChosenKeepsMarks(s, Step(s, e), failed);
    } else {
      hide OnUserConnect, OnForget, OnEapolDone, OnDone, SameMarks;
      match e {
        case UserConnect(ssid, psk) => ConnectKeepsMarks(s, ssid, psk);
        case UserForget(name) => ForgetKeepsMarks(s, name);
        case EapolDone => EapolDoneKeepsMarks(s);
        case _ => IdleDone(s);
      }
    }
  }

  // After the sweep, what is done about the requests leaves the table's places alone.
  lemma DoneKeepsMarks(s: State)
    requires Fit(s) && s.scan == Dumping
    ensures SameMarks(Swept(s).table, OnDone(s).s.table)
  {
    hide Reassess, Swept, Best, FindCurrent;
    var u := Swept(s);
    ReassessKeepsMarks(u);
    var w := if u.mode == Rescan then u.(mode := Active) else u;
    ReassessKeepsMarks(w);
    ConnectionPicksNone(w);
  }

  lemma SweepKeepsUnmarked(s: State)
    requires Fit(s) && Sound(s.table)
    ensures NoStale(Swept(s).table)
    ensures forall k :: 0 <= k < NSCANS ==>
              SamePlace(if s.table.slots[k].flags.stale then EMPTY else s.table.slots[k], Swept(s).table.slots[k])
  {
    hide Suitable, Entries, CheckNew, DropFrom;
    SweptSound(s);
    DropSweeps(s.table, 0);
    SweptIsChecked(s);
    CheckedPlaces(ResetScan(s).(table := Drop(s.table)));
  }

  lemma CheckedPlaces(s: State)
    requires Fit(s)
    ensures SameMarks(s.table, CheckNew(s).table)
  {
    hide Suitable, Entries;
  }

  // Both together.
  lemma DoneLeaves(s: State)
    requires Fit(s) && Sound(s.table) && s.scan == Dumping
    ensures NoStale(OnDone(s).s.table)
    ensures forall k :: 0 <= k < NSCANS ==>
              SamePlace(if s.table.slots[k].flags.stale then EMPTY else s.table.slots[k], OnDone(s).s.table.slots[k])
  {
    hide OnDone, Swept;
    SweepKeepsUnmarked(s);
    DoneKeepsMarks(s);
  }

  // ---- One scan, from any table to the sweep ----

  // A frequency is announced while the station is scanning.
  ghost predicate MarkedIn(s: State, es: seq<Event>, freq: int)
    requires Fit(s)
  {
    if es == [] then false
    else
      var n := |es| - 1;
      MarkedIn(s, es[..n], freq) || (es[n].CardTrigger? && freq in es[n].freqs && Run(s, es[..n]).s.scan == Scanning)
  }

  predicate ReportedIn(es: seq<Event>, bssid: Mac) {
    if es == [] then false
    else
      var n := |es| - 1;
      ReportedIn(es[..n], bssid) || (es[n].CardResult? && es[n].report.bssid == bssid)
  }

  // No dump comes to its end.
  ghost predicate NoSweep(s: State, es: seq<Event>)
    requires Fit(s)
  {
    if es == [] then true
    else
      var n := |es| - 1;
      NoSweep(s, es[..n]) && !(es[n].CardDone? && Run(s, es[..n]).s.scan == Dumping)
  }

  // A report goes to the slot of its BSSID, a zero slot or a stale one.
  lemma TakenWhere(t: Table, r: Report, k: nat)
    requires Sound(t) && k < NSCANS
    ensures var u := Take(t, r);
      u.slots[k] == t.slots[k] || (u.slots[k].bssid == r.bssid && !u.slots[k].flags.stale && Replaceable(t.slots[k], r))
  {
    hide First, Take, Has, IsUseless;
    TakeChangesOne(t, r);
    if Grab(t, r.bssid).slot == k { GrabbedWhere(t, r); }
  }

  predicate Replaceable(s: Scan, r: Report) { s == EMPTY || s.flags.stale || (Live(s) && s.bssid == r.bssid) }

  lemma GrabbedWhere(t: Table, r: Report)
    requires Sound(t)
    ensures var g := Grab(t, r.bssid).slot; g < 0 || Replaceable(t.slots[g], r)
  {
  }

  // What an unreported slot of the start has become before the sweep: untouched unless it
  // was marked; and if marked, still so or overwritten.
  ghost predicate Pending(was: Scan, now: Scan, marked: bool) {
    if was.flags.stale || marked then Live(now) && now.bssid == was.bssid ==> now.flags.stale
    else SamePlace(was, now) && !now.flags.stale
  }

  // A slot of the end was reported, or is one of the start.
  ghost predicate Accounted(was: Scan, now: Scan, es: seq<Event>) { ReportedIn(es, now.bssid) || SamePlace(was, now) }

  lemma PendingStep(s: State, e: Event, was: Scan, marked: bool, k: nat)
    requires Fit(s) && Sound(s.table) && k < NSCANS && Live(was) && Pending(was, s.table.slots[k], marked)
    requires !(e.CardDone? && s.scan == Dumping) && !(e.CardResult? && e.report.bssid == was.bssid)
    ensures Pending(was, Step(s, e).s.table.slots[k],
                    marked || (e.CardTrigger? && was.freq in e.freqs && s.scan == Scanning))
  {
    if OfScan(s, e) {
      hide Take;
      if e.CardResult? { TakenWhere(s.table, e.report, k); }
    } else {
      hide Step;
      OthersKeepMarks(s, e);
    }
  }

  lemma AccountedStep(s: State, es: seq<Event>, e: Event, was: Scan, k: nat)
    requires Fit(s) && Sound(s.table) && k < NSCANS && Accounted(was, s.table.slots[k], es)
    requires !(e.CardDone? && s.scan == Dumping)
    ensures Accounted(was, Step(s, e).s.table.slots[k], es + [e])
  {
    assert (es + [e])[..|es|] == es;
    if OfScan(s, e) {
      hide Take;
      if e.CardResult? { TakenWhere(s.table, e.report, k); }
    } else {
      hide Step;
      OthersKeepMarks(s, e);
    }
  }

  lemma {:induction false} ScanLeaves(s: State, es: seq<Event>, k: nat)
    requires Fit(s) && Sound(s.table) && NoSweep(s, es) && k < NSCANS
    ensures var was, now := s.table.slots[k], Run(s, es).s.table.slots[k];
      && Accounted(was, now, es)
      && (Live(was) && !ReportedIn(es, was.bssid) ==> Pending(was, now, MarkedIn(s, es, was.freq)))
  {
    hide Step, Pending, Accounted;
    var was := s.table.slots[k];
    if es == [] {
      NothingPending(was, es);
    } else {
      var n := |es| - 1;
      var p := Run(s, es[..n]).s;
      ScanLeaves(s, es[..n], k);
      TableStaysSound(s, es[..n]);
      AccountedStep(p, es[..n], es[n], was, k);
      assert es[..n] + [es[n]] == es;
      if Live(was) && !ReportedIn(es, was.bssid) {
        PendingStep(p, es[n], was, MarkedIn(s, es[..n], was.freq), k);
      }
    }
  }

  lemma NothingPending(was: Scan, es: seq<Event>)
    ensures Pending(was, was, false) && Accounted(was, was, es)
  {
  }

  // However the card's messages about a scan and everything else come in between, the
  // sweep at its end leaves a slot that was not reported exactly when it was neither
  // marked before nor is on a frequency announced since; it is then as it was. Every live
  // slot was reported or was there before, and none is stale.
  lemma SweepLeaves(s: State, es: seq<Event>, k: nat)
    requires Fit(s) && Sound(s.table) && NoSweep(s, es) && Run(s, es).s.scan == Dumping && k < NSCANS
    ensures var was, now := s.table.slots[k], Step(Run(s, es).s, CardDone).s.table.slots[k];
      && !now.flags.stale
      && (Live(now) ==> ReportedIn(es, now.bssid) || SamePlace(was, now))
      && (Live(was) && !ReportedIn(es, was.bssid) ==>
            (Live(now) && now.bssid == was.bssid <==> !was.flags.stale && !MarkedIn(s, es, was.freq)))
  {
    hide OnDone, Run;
    var p := Run(s, es).s;
    TableStaysSound(s, es);
    ScanLeaves(s, es, k);
    DoneLeaves(p);
  }

  // ---- Scans that break off ----

  // The events that end a scan without a sweep.
  predicate BreaksOff(s: State, e: Event) {
    || (s.scan == Scanning && (e.CardScanAborted? || (e.CardScanDone? && !e.sent)))
    || (e.CardError? && (e.err == -ENETDOWN || (e.sq == s.scanseq && e.err != 0)))
  }

  // With no scan under way there are no marks.
  ghost predicate AtRest(s: State) { s.scan == NoScan ==> NoStale(s.table) }

  lemma ReassessKeepsScan(s: State)
    requires Fit(s)
    ensures Reassess(s).s.scan == s.scan
  {
    hide ConnectToSomething;
    SearchKeepsScan(s);
  }

  lemma {:induction false} SearchKeepsScan(s: State)
    requires Fit(s)
    ensures ConnectToSomething(s).s.scan == s.scan
    decreases GoodCount(s.table.slots, s.table.n)
  {
    hide SetCurrentAp;
    var i := Best(s.table.slots, s.table.n, FilterOf(s.ap));
    if i >= 0 {
      PickIsQuiet(s, i);
      TurnCostsGood(s, i);
      SearchKeepsScan(NotGood(SetCurrentAp(s, i).s, i));
    }
  }

  lemma ScanStarts(s: State, freq: int, sent: bool)
    ensures s.scan != NoScan ==> Scans(s, freq, sent).s.scan == s.scan
  {
  }

  lemma DisconnectPhase(s: State, sent: bool)
    requires Fit(s)
    ensures s.scan != NoScan ==> HandleDisconnect(s, sent).s.scan == s.scan
  {
    hide Reassess, StartScan;
    var w := AfterLoss(s);
    var x := w.(ap := w.ap.(success := false), mode := Rescan);
    ScanStarts(x, x.ap.freq, sent);
    var y := ClearBssid(w);
    ReassessKeepsScan(if y.ap.fixed then y else ClearSsid(y));
  }

  lemma AbortPhase(s: State)
    requires Fit(s)
    ensures Abort(s).s.scan == s.scan
  {
    hide Reassess;
    ReassessKeepsScan(s);
  }

  lemma ConnectionEventPhase(s: State, e: Event)
    requires Fit(s) && AboutConnection(e)
    ensures s.scan != NoScan ==> Step(s, e).s.scan == s.scan
  {
    hide HandleDisconnect, Abort;
    AbortPhase(s);
    DisconnectPhase(s.(auth := Idle), if e.CardDisconnect? then e.sent else true);
    DisconnectPhase(s.(mode := Neutral, auth := External), e.sent);
  }

  lemma ErrorPhase(s: State, err: int, sq: nat, sent: bool)
    requires Fit(s)
    ensures BreaksOff(s, CardError(err, sq, sent)) ==> OnError(s, err, sq, sent).s.scan == NoScan
    ensures !BreaksOff(s, CardError(err, sq, sent)) && s.scan != NoScan ==> OnError(s, err, sq, sent).s.scan == s.scan
  {
    hide Reassess, Abort, StartScan;
    AbortPhase(s);
    ReassessKeepsScan(s.(auth := Idle));
    ScanStarts(s.(auth := Idle), s.ap.freq, sent);
  }

  lemma TimerPhase(s: State, sent: bool)
    requires Fit(s)
    ensures s.scan != NoScan ==> OnTimer(s, sent).s.scan == s.scan
  {
    hide Abort, StartScan, ForegroundScan, BackgroundScan;
    AbortPhase(s.(timer := false));
    var w, freq := TimerScans(s, sent);
    ScanStarts(w, freq, sent);
  }

  lemma RfRestoredPhase(s: State, sent: bool)
    requires Fit(s)
    ensures s.scan != NoScan ==> OnRfRestored(s, sent).s.scan == s.scan
  {
    hide Reassess, StartScan;
    var w := s.(rfkilled := false, auth := Idle);
    ReassessKeepsScan(w);
    var x := w.(ap := w.ap.(success := false), mode := Rescan);
    ScanStarts(x, x.ap.freq, sent);
  }

  lemma UserConnectPhase(s: State, ssid: Option<seq<Octet>>, psk: Option<seq<Octet>>)
    requires Fit(s)
    ensures s.scan != NoScan ==> OnUserConnect(s, ssid, psk).s.scan == s.scan
  {
    hide Reassess, Configure;
  }

  // Apart from the end of a dump, nothing else ends a scan.
  lemma ScanPhase(s: State, e: Event)
    requires Fit(s) && !(e.CardDone? && s.scan == Dumping)
    ensures BreaksOff(s, e) ==> Step(s, e).s.scan == NoScan
    ensures !BreaksOff(s, e) && s.scan != NoScan ==> Step(s, e).s.scan != NoScan
  {
    if AboutConnection(e) {
      ConnectionEventPhase(s, e);
    } else {
      hide Abort, Reassess, OnError, OnTimer, OnRfRestored, OnUserConnect, OnEapolDone, StartScan, Take, Mark, OnForget;
      match e {
        case CardError(err, sq, sent) => ErrorPhase(s, err, sq, sent);
        case Timer(sent) => TimerPhase(s, sent);
        case RfRestored(sent) => RfRestoredPhase(s, sent);
        case UserConnect(ssid, psk) => UserConnectPhase(s, ssid, psk);
        case UserScan(sent) => ScanStarts(s, 0, sent);
        case EapolAborts => AbortPhase(s);
        case EapolDone => EapolDonePhase(s);
        case UserForget(name) => ForgetPhase(s, name);
        case _ =>
      }
    }
  }

  lemma EapolDonePhase(s: State)
    requires Fit(s)
    ensures OnEapolDone(s).s.scan == s.scan
  {
    hide FindCurrent, SaveLines;
  }

  lemma ForgetPhase(s: State, name: seq<Octet>)
    requires Fit(s)
    ensures OnForget(s, name).s.scan == s.scan
  {
    hide Entries, DropLines;
  }

  // Marks are only set while the card is scanning.
  lemma RestingStep(s: State, e: Event)
    requires Fit(s) && Sound(s.table) && NoStale(s.table) && s.scan != Scanning
    ensures NoStale(Step(s, e).s.table)
  {
    if OfScan(s, e) {
      hide Take, OnDone;
      if e.CardResult? {
        TakeChangesOne(s.table, e.report);
      } else {
        DoneLeaves(s);
      }
    } else {
      hide Step;
      OthersKeepMarks(s, e);
    }
  }

  // An event leaves the station without a scan but with marks exactly when it breaks off
  // a scan while there are marks.
  lemma MarksLeft(s: State, e: Event)
    requires Fit(s) && Sound(s.table) && AtRest(s)
    ensures AtRest(Step(s, e).s) <==> !(BreaksOff(s, e) && !NoStale(s.table))
  {
    hide Step, NoStale;
    if e.CardDone? && s.scan == Dumping {
      DoneIsNoBreak(s);
    } else {
      ScanPhase(s, e);
      if s.scan == NoScan {
        RestingStep(s, e);
      } else if BreaksOff(s, e) {
        BrokenTable(s, e);
      }
    }
  }

  lemma DoneIsNoBreak(s: State)
    requires Fit(s) && Sound(s.table) && s.scan == Dumping
    ensures AtRest(Step(s, CardDone).s) && !BreaksOff(s, CardDone)
  {
    hide OnDone;
    DoneLeaves(s);
  }

  lemma BrokenTable(s: State, e: Event)
    requires Fit(s) && BreaksOff(s, e) && !(e.CardDone? && s.scan == Dumping)
    ensures Step(s, e).s.table == s.table
  {
    hide OnAuthError;
  }

  // Every state of a run is without marks when it is without a scan.
  ghost predicate AlwaysAtRest(s: State, es: seq<Event>)
    requires Fit(s)
  {
    AtRest(Run(s, es).s) && (es == [] || AlwaysAtRest(s, es[..|es| - 1]))
  }

  // Some event of the run breaks off a scan while there are marks.
  ghost predicate LeavesMarks(s: State, es: seq<Event>)
    requires Fit(s)
  {
    if es == [] then false
    else
      var n := |es| - 1;
      var p := Run(s, es[..n]).s;
      LeavesMarks(s, es[..n]) || (BreaksOff(p, es[n]) && !NoStale(p.table))
  }

  // A station that starts without marks has none whenever it has no scan, so that every
  // scan starts without any, exactly as long as no scan breaks off while there are some.
  lemma {:induction false} EveryScanStartsClean(s: State, es: seq<Event>)
    requires Fit(s) && Sound(s.table) && AtRest(s)
    ensures AlwaysAtRest(s, es) <==> !LeavesMarks(s, es)
  {
    hide Step, AtRest, BreaksOff, NoStale;
    if es != [] {
      var n := |es| - 1;
      EveryScanStartsClean(s, es[..n]);
      TableStaysSound(s, es[..n]);
      if AlwaysAtRest(s, es[..n]) { MarksLeft(Run(s, es[..n]).s, es[n]); }
    } else {
      assert Run(s, []).s == s;
    }
  }

  // What the program starts from meets what the theorems about runs ask of a start.
  lemma StartIsClean(conf: seq<seq<Octet>>)
    ensures var s := Start(conf); Fresh(s) && Sound(s.table) && AtRest(s)
  {
  }
}

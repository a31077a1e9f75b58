/** Runs of the station from its very start in which it does less than expected, event by
    event as the card, the timer, rfkill and the user send them; no timer expires that was
    not set. */
module StationExamples {
  import opened Octets
  import opened Scan
  import opened StaIes
  import opened ScanTable
  import opened ApSelect
  import opened PskText
  import opened PskMap
  import opened PskEffects
  import opened StationSpec
  import opened StationRuns
  import opened StationPicks
  import opened StationDescents
  import opened StationTable
  import opened StationScans
  import opened StationStops
  import opened StationWaits
  import opened StationSetup
  import opened Seqs
  import opened Wrappers

  // A run from the start that goes on from the first attempt.
  lemma GoesOn(key: Psk, es: seq<Event>)
    requires forall k :: 0 <= k < |es| ==> !es[k].Timer?
    ensures var s := Start(File(key));
      Run(s, Setup(key) + es).s == Run(Trying(key), es).s && Timely(s, Setup(key) + es)
  {
    hide Run, File, Setup, Timely, Trying;
    SetupEnds(key);
    RunInTwo(Start(File(key)), Setup(key), es);
    TimelyOn(Start(File(key)), Setup(key), es);
  }

  // ---- A disconnected station connects again (wifi.1, wsupp_cntrl.c:288-302) ----

  // The AP has gone from the card's own list, and the user disconnects meanwhile.
  ghost function Gone(): seq<Event> { [CardError(-ENOENT, 3, true), UserNeutral, CardScanDone(true)] }

  ghost function Searched(key: Psk): State {
    Trying(key).(auth := Idle, scan := Scanning, req := Requests(true, true, false), scanseq := 4, nlseq := 4)
  }

  lemma GoneIsSearched(key: Psk)
    ensures Step(Trying(key), CardError(-ENOENT, 3, true)).s == Searched(key)
    ensures Step(Searched(key), UserNeutral).s == Searched(key).(mode := Neutral)
    ensures Step(Searched(key).(mode := Neutral), CardScanDone(true)).s
         == Searched(key).(mode := Neutral, scan := StationSpec.Dumping, scanseq := 5, nlseq := 5)
  {
    hide File, Listed;
  }

  // The dump of that scan comes to its end while the station is neutral: it finds the AP
  // in the table and opens an attempt.
  lemma FoundAgain(key: Psk)
    ensures var s := Searched(key).(mode := Neutral, scan := StationSpec.Dumping, scanseq := 5, nlseq := 5);
      Reconnects(s, CardDone)
  {
    hide File, DropFrom, Entries, SoughtName;
    var s := Searched(key).(mode := Neutral, scan := StationSpec.Dumping, scanseq := 5, nlseq := 5);
    NothingToDrop(s.table, 0);
    assert Swept(s).table.slots[0] == s.table.slots[0];
    assert IsCurrent(s.ap)(s.table.slots[0]);
  }

  // A run from the start in which the user's disconnect does not last.
  lemma NeutralReconnects(key: Psk)
    ensures Timely(Start(File(key)), Setup(key) + Gone())
    ensures var s := Run(Start(File(key)), Setup(key) + Gone()).s;
      s.mode == Neutral && Attempts(Step(s, CardDone).acts)
  {
    hide Step, Run, File, Setup, Trying, Searched, Attempts, Reconnects, Timely;
    GoesOn(key, Gone());
    var t := Trying(key);
    GoneIsSearched(key);
    RunNone(t);
    var a := [CardError(-ENOENT, 3, true)];
    assert [] + a == a;
    EndsMore(t, [], t, CardError(-ENOENT, 3, true));
    EndsMore(t, a, Searched(key), UserNeutral);
    EndsMore(t, a + [UserNeutral], Searched(key).(mode := Neutral), CardScanDone(true));
    assert a + [UserNeutral] + [CardScanDone(true)] == Gone();
    FoundAgain(key);
    NeutralOpens(Searched(key).(mode := Neutral, scan := StationSpec.Dumping, scanseq := 5, nlseq := 5), CardDone);
  }

  // ---- A station asked to exit connects again (wsupp.c:199-219) ----

  // The attempt succeeds.
  ghost function Serves(): seq<Event> {
    [CardAuthenticate(true), CardAssociate(false, true), CardConnect(true), EapolDone]
  }

  ghost function Joining(key: Psk): State { Trying(key).(auth := Connecting, nlseq := 4) }

  ghost function Served(key: Psk): (s: State)
    ensures StationSpec.Fit(s) && s.timer && !s.rfkilled
  {
    Joining(key).(auth := Connected, nlseq := 6, mode := Active, timer := true, conf := SaveLines(File(key), A, key),
                  ap := ApA(FIRST, 2412, WPA2).(unsaved := false, success := true),
                  table := Listed(true, false).(slots :=
                    Listed(true, false).slots[0 := Judged(NearA(), true)]))
  }

  lemma ServesSteps(key: Psk)
    ensures Step(Trying(key), CardAuthenticate(true)).s == Trying(key).(auth := Associating, nlseq := 4)
    ensures Step(Trying(key).(auth := Associating, nlseq := 4), CardAssociate(false, true)).s == Joining(key)
    ensures Step(Joining(key), CardConnect(true)).s == Joining(key).(auth := Connected)
  {
    hide File, Listed, SaveLines;
  }

  lemma QuitIsAsked(key: Psk)
    ensures Step(Served(key), SigTerm).s == Served(key).(auth := Disconnecting, nlseq := 7, mode := ExitReq)
  {
    hide File, Listed, SaveLines;
  }

  lemma HandshakeEnds(key: Psk)
    ensures Step(Joining(key).(auth := Connected), EapolDone).s == Served(key)
  {
    hide File, SaveLines;
    var s := Joining(key).(auth := Connected);
    assert IsCurrent(s.ap)(s.table.slots[0]);
    assert Named()[..1] == A;
  }

  lemma ServedIsUsable(key: Psk)
    ensures var s := Served(key);
      StationSpec.Fit(s) && s.table.n == 3 && s.scan == NoScan && s.scanseq == 0 && AnyUsable(s)
  {
    hide File, SaveLines;
    assert Usable(Served(key), 0);
  }

  lemma ServesEnds(key: Psk)
    ensures Run(Trying(key), Serves()).s == Served(key)
  {
    hide Step, Run, File, Trying, Served, Joining;
    var t := Trying(key);
    ServesSteps(key);
    HandshakeEnds(key);
    RunNone(t);
    var a := [CardAuthenticate(true)];
    assert [] + a == a;
    EndsMore(t, [], t, CardAuthenticate(true));
    var b := a + [CardAssociate(false, true)];
    EndsMore(t, a, t.(auth := Associating, nlseq := 4), CardAssociate(false, true));
    EndsMore(t, b, Joining(key), CardConnect(true));
    EndsMore(t, b + [CardConnect(true)], Joining(key).(auth := Connected), EapolDone);
    assert b + [CardConnect(true)] + [EapolDone] == Serves();
  }

  // A run from the start in which the card refuses the disconnect, and the station asked
  // to exit opens another attempt.
  lemma ExitReconnects(key: Psk)
    ensures Timely(Start(File(key)), Setup(key) + (Serves() + [SigTerm]))
    ensures var s := Run(Start(File(key)), Setup(key) + (Serves() + [SigTerm])).s;
      && s.mode == ExitReq && s.auth == Disconnecting
      && Attempts(Step(s, CardError(-114, 7, true)).acts)
  {
    hide Step, Run, File, Setup, Served, Trying, Attempts, AnyUsable, Timely;
    GoesOn(key, Serves() + [SigTerm]);
    ServesEnds(key);
    EndsMore(Trying(key), Serves(), Served(key), SigTerm);
    QuitIsAsked(key);
    var s := Served(key).(auth := Disconnecting, nlseq := 7, mode := ExitReq);
    ServedIsUsable(key);
    SameSlots(Served(key), s.(auth := Idle));
    RefusedDisconnectOpens(s, -114, 7, true);
  }

  // ---- A selection ranks above the one before it ----

  // Both attempts at A fail, the second with a disconnect notification, which makes the
  // station forget A. The user asks for a scan, which finds the network down; rfkill
  // explains why, and once it is lifted the next search takes B.
  ghost function Fails(): seq<Event> {
    [CardError(-16, 3, true), CardError(-16, 4, true), CardDisconnect(true), UserScan(true),
     CardError(-ENETDOWN, 6, true), RfKilled, RfRestored(true)]
  }

  ghost function Stopping(key: Psk): State { Trying(key).(auth := Disconnecting, nlseq := 4) }

  ghost function Again(key: Psk): State {
    Trying(key).(nlseq := 5, table := Listed(true, true), ap := ApA(SECOND, 2412, WPA2))
  }

  ghost function Lost(key: Psk): State { ClearSsid(ClearBssid(Again(key).(auth := Idle))) }

  ghost function Killed(key: Psk): State { Lost(key).(auth := NetDown, nlseq := 6, rfkilled := true) }

  lemma FartherIsBest(key: Psk)
    ensures var s := Stopping(key).(auth := Idle);
      IsBest(s.table.slots, 3, FilterOf(s.ap), 1) && Usable(s, 1)
  {
    hide SaveLines, LoadLines;
  }

  lemma FartherIsTaken(key: Psk)
    ensures Step(Trying(key), CardError(-16, 3, true)) == Result(Stopping(key), [Disconnect(4)])
    ensures Step(Stopping(key), CardError(-16, 4, true))
         == Result(Again(key), [Picked(1), Authenticate(5, Who(Again(key)))])
  {
    hide SaveLines, Configure, IsBest, Usable, Reassess;
    FartherIsBest(key);
    var s := Stopping(key).(auth := Idle);
    SearchTakes(s, 1);
    assert SetCurrentAp(s, 1).s.table.slots == Listed(true, true).slots;
  }

  lemma AIsForgotten(key: Psk)
    ensures Step(Again(key), CardDisconnect(true)) == Result(Lost(key), [EapolReset])
    ensures Step(Lost(key), UserScan(true))
         == Result(Lost(key).(scan := Scanning, scanseq := 6, nlseq := 6), [TriggerScan(6, 0)])
  {
    hide File, Listed;
  }

  lemma NetworkGoes(key: Psk)
    ensures Step(Lost(key).(scan := Scanning, scanseq := 6, nlseq := 6), CardError(-ENETDOWN, 6, true))
         == Result(Lost(key).(auth := NetDown, nlseq := 6, timer := true), [])
    ensures Step(Lost(key).(auth := NetDown, nlseq := 6, timer := true), RfKilled) == Result(Killed(key), [])
  {
    hide File, Listed;
  }

  lemma BIsBest(key: Psk)
    ensures var s := Lost(key).(nlseq := 6);
      && StationSpec.Fit(s) && s.mode == OneShot && !s.rfkilled && BothIdle(s)
      && IsBest(s.table.slots, s.table.n, FilterOf(s.ap), 2) && Usable(s, 2)
  {
    hide File, LoadLines;
    FileHasB(key);
    assert AnyB().ssid[..1] == B;
  }

  lemma BIsTaken(key: Psk)
    ensures var r := Step(Killed(key), RfRestored(true));
      |r.acts| == 2 && r.acts[0] == Picked(2) && r.acts[1].Authenticate?
  {
    hide File, IsBest, Usable, Reassess, Lost, SetCurrentAp;
    BIsBest(key);
    SearchTakes(Lost(key).(nlseq := 6), 2);
  }

  lemma FailsRun(key: Psk) returns (last: Act)
    ensures Run(Trying(key), Fails()).acts
         == [Disconnect(4), Picked(1), Authenticate(5, Who(Again(key))), EapolReset, TriggerScan(6, 0), Picked(2), last]
    ensures last.Authenticate?
  {
    hide Step, Run, File, Trying, Stopping, Again, Lost, Killed;
    var t := Trying(key);
    FartherIsTaken(key);
    AIsForgotten(key);
    NetworkGoes(key);
    BIsTaken(key);
    last := Step(Killed(key), RfRestored(true)).acts[1];
    RunNone(t);
    var a := [CardError(-16, 3, true)];
    assert [] + a == a;
    RunMore(t, [], CardError(-16, 3, true));
    var b := a + [CardError(-16, 4, true)];
    RunMore(t, a, CardError(-16, 4, true));
    var c := b + [CardDisconnect(true)];
    RunMore(t, b, CardDisconnect(true));
    var d := c + [UserScan(true)];
    RunMore(t, c, UserScan(true));
    var e := d + [CardError(-ENETDOWN, 6, true)];
    RunMore(t, d, CardError(-ENETDOWN, 6, true));
    RunMore(t, e, RfKilled);
    RunMore(t, e + [RfKilled], RfRestored(true));
    assert e + [RfKilled] + [RfRestored(true)] == Fails();
  }

  // A quiet run from a state that is reached from the start, in which the second slot
  // selected ranks above the first.
  lemma RanksRise(key: Psk)
    ensures Timely(Start(File(key)), Setup(key) + Fails())
    ensures var s := Run(Start(File(key)), Setup(key)).s;
      && AllQuiet(Fails())
      && Picks(Run(s, Fails()).acts) == [1, 2]
      && Better(s.table.slots[2], s.table.slots[1])
  {
    hide Step, Run, File, Setup, Timely;
    SetupEnds(key);
    GoesOn(key, Fails());
    var last := FailsRun(key);
    var a := [Disconnect(4), Picked(1)];
    var b := [Authenticate(5, Who(Again(key))), EapolReset, TriggerScan(6, 0)];
    var c := [Picked(2), last];
    PicksOfTwo(a, b);
    PicksOfTwo(a + b, c);
    NonePicked(b);
    assert a[1..] == [Picked(1)] && a[1..][1..] == [] && c[1..] == [last] && c[1..][1..] == [];
    assert Picks(a[1..]) == [1] && Picks(c[1..]) == [];
    assert a + b + c == Run(Trying(key), Fails()).acts;
  }

  // ---- A station gets stuck (wsupp_apsel.c:389-433, wsupp_netlink.c:117-122, 529-543) ----

  // The user's attempt ends with a disconnect notification: the station stays in one-shot
  // mode and never tries again.
  lemma LossIsFinal(key: Psk)
    ensures Timely(Start(File(key)), Setup(key) + [CardDisconnect(true)])
    ensures Stuck(Run(Start(File(key)), Setup(key) + [CardDisconnect(true)]).s)
  {
    hide Step, Run, File, Setup, Timely;
    GoesOn(key, [CardDisconnect(true)]);
    var t := Trying(key);
    RunNone(t);
    assert [] + [CardDisconnect(true)] == [CardDisconnect(true)];
    EndsMore(t, [], t, CardDisconnect(true));
    StuckExactly(t, CardDisconnect(true));
  }

  // A working connection is lost, and a scan for the AP is started.
  ghost function Rescanning(key: Psk): State {
    var s := Served(key);
    s.(auth := Idle, mode := Rescan, timer := false, ap := s.ap.(success := false),
       scan := Scanning, req := Requests(true, true, false), scanseq := 7, nlseq := 7)
  }

  lemma LostIsRescanned(key: Psk, killed: bool)
    ensures Step(Served(key).(rfkilled := killed, timer := !killed), CardDisconnect(true)).s
         == Rescanning(key).(rfkilled := killed)
  {
    hide File, Listed, SaveLines;
  }

  lemma ServedOn(key: Psk, es: seq<Event>)
    requires forall k :: 0 <= k < |es| ==> !es[k].Timer?
    ensures var s := Start(File(key));
      Run(s, Setup(key) + (Serves() + es)).s == Run(Served(key), es).s && Timely(s, Setup(key) + (Serves() + es))
  {
    hide Run, File, Setup, Timely, Trying, Served;
    GoesOn(key, Serves() + es);
    RunInTwo(Trying(key), Serves(), es);
    ServesEnds(key);
  }

  // The card aborts that scan. The station stays in rescan mode and never scans again.
  lemma AbortedRescanIsFinal(key: Psk)
    ensures var es := Setup(key) + (Serves() + [CardDisconnect(true), CardScanAborted]);
      Timely(Start(File(key)), es) && Stuck(Run(Start(File(key)), es).s)
  {
    hide Step, Run, File, Setup, Served, Timely;
    var t := Served(key);
    var a := [CardDisconnect(true)];
    ServedOn(key, a + [CardScanAborted]);
    assert a + [CardScanAborted] == [CardDisconnect(true), CardScanAborted];
    RunNone(t);
    assert [] + a == a;
    EndsMore(t, [], t, CardDisconnect(true));
    ServedIsUsable(key);
    LostIsRescanned(key, false);
    EndsMore(t, a, Rescanning(key), CardScanAborted);
    StuckExactly(Rescanning(key), CardScanAborted);
  }

  // Rfkill strikes first, the connection is lost, and the scan finds the network down.
  ghost function Strikes(): seq<Event> {
    [RfKilled, CardDisconnect(true), CardError(-ENETDOWN, 7, true), RfRestored(true)]
  }

  lemma KilledServing(key: Psk)
    ensures Step(Served(key), RfKilled).s == Served(key).(rfkilled := true, timer := false)
  {
    hide File, Listed, SaveLines;
  }

  // Once the rfkill is lifted, no scan is started, although the comment on
  // handle_rfrestored expects one (wsupp_apsel.c:416-420).
  lemma RfkillIsFinal(key: Psk)
    ensures var es := Setup(key) + (Serves() + Strikes());
      && Timely(Start(File(key)), es) && Stuck(Run(Start(File(key)), es).s)
      && Run(Start(File(key)), es).s.mode == Rescan
  {
    hide Step, Run, File, Setup, Served, Timely;
    var t := Served(key);
    ServedOn(key, Strikes());
    RunNone(t);
    var a := [RfKilled];
    assert [] + a == a;
    EndsMore(t, [], t, RfKilled);
    KilledServing(key);
    EndsMore(t, a, t.(rfkilled := true, timer := false), CardDisconnect(true));
    LostIsRescanned(key, true);
    var b := a + [CardDisconnect(true)];
    var r := Rescanning(key).(rfkilled := true);
    EndsMore(t, b, r, CardError(-ENETDOWN, 7, true));
    DownIsIdle(r);
    var c := b + [CardError(-ENETDOWN, 7, true)];
    EndsMore(t, c, ResetScan(r), RfRestored(true));
    NothingRestored(ResetScan(r));
    assert c + [RfRestored(true)] == Strikes();
  }

  lemma DownIsIdle(s: State)
    requires StationSpec.Fit(s) && s.rfkilled && s.auth == Idle
    ensures Step(s, CardError(-ENETDOWN, 7, true)).s == ResetScan(s)
  {
  }

  lemma NothingRestored(s: State)
    requires StationSpec.Fit(s) && s.auth == Idle
    ensures Step(s, RfRestored(true)).s == s.(rfkilled := false)
  {
  }

  // ---- A scan that breaks off (wsupp_netlink.c:117-122, 275-284) ----

  // The timer starts a scan of 2412, which the card aborts; the next one announces 5180.
  ghost function Breaks(): seq<Event> { [Timer(true), CardTrigger([2412]), CardScanAborted] }

  ghost function Next(): seq<Event> { [UserScan(true), CardTrigger([5180]), CardScanDone(true)] }

  ghost function LeftMarked(key: Psk): State { Ready(key).(nlseq := 3, table := Mark(Listed(false, false), [2412])) }

  lemma BreaksSteps(key: Psk)
    ensures var s := Ready(key).(scan := Scanning, scanseq := 3, nlseq := 3);
      && Step(Ready(key), Timer(true)).s == s
      && Step(s, CardTrigger([2412])).s == LeftMarked(key).(scan := Scanning, scanseq := 3)
      && Step(LeftMarked(key).(scan := Scanning, scanseq := 3), CardScanAborted).s == LeftMarked(key)
  {
    hide File, Listed, Mark;
  }

  lemma BreaksEnds(key: Psk)
    ensures var s := Start(File(key));
      Run(s, Listen() + Breaks()).s == LeftMarked(key) && Timely(s, Listen() + Breaks())
  {
    hide Step, Run, File, Listen, Ready, LeftMarked;
    var s := Start(File(key));
    var t := Ready(key);
    ListenEnds(key);
    BreaksSteps(key);
    var a := Listen() + [Timer(true)];
    EndsMore(s, Listen(), t, Timer(true));
    EndsMore(s, a, t.(scan := Scanning, scanseq := 3, nlseq := 3), CardTrigger([2412]));
    EndsMore(s, a + [CardTrigger([2412])], LeftMarked(key).(scan := Scanning, scanseq := 3), CardScanAborted);
    assert a + [CardTrigger([2412])] + [CardScanAborted] == Listen() + Breaks();
    ReadyIsTimed(key);
    OneMoreTimer(s, Listen());
    TimelyOn(s, a, [CardTrigger([2412]), CardScanAborted]);
    assert a + [CardTrigger([2412]), CardScanAborted] == Listen() + Breaks();
  }

  lemma ReadyIsTimed(key: Psk)
    ensures Ready(key).timer
  {
  }

  lemma OneMoreTimer(s: State, es: seq<Event>)
    requires StationSpec.Fit(s) && Timely(s, es) && Run(s, es).s.timer
    ensures Timely(s, es + [Timer(true)])
  {
    hide Run;
    assert (es + [Timer(true)])[..|es|] == es;
  }

  lemma NextSteps(s: State)
    requires StationSpec.Fit(s) && s.scan == NoScan
    ensures var u := s.(scan := Scanning, scanseq := s.nlseq + 1, nlseq := s.nlseq + 1);
      var v := u.(table := Mark(s.table, [5180]));
      && Step(s, UserScan(true)).s == u && Step(u, CardTrigger([5180])).s == v
      && Step(v, CardScanDone(true)).s == v.(scan := StationSpec.Dumping, scanseq := s.nlseq + 2, nlseq := s.nlseq + 2)
  {
    hide Mark;
  }

  lemma NextEnds(s: State)
    requires StationSpec.Fit(s) && s.scan == NoScan
    ensures Run(s, Next()).s.scan == StationSpec.Dumping && NoSweep(s, Next())
    ensures !MarkedIn(s, Next(), 2412) && !ReportedIn(Next(), FIRST)
  {
    hide Step, Run, Mark, NoSweep, MarkedIn, ReportedIn;
    var u := s.(scan := Scanning, scanseq := s.nlseq + 1, nlseq := s.nlseq + 1);
    NextSteps(s);
    RunNone(s);
    var a := [UserScan(true)];
    assert [] + a == a;
    EndsMore(s, [], s, UserScan(true));
    var b := a + [CardTrigger([5180])];
    EndsMore(s, a, u, CardTrigger([5180]));
    EndsMore(s, b, u.(table := Mark(s.table, [5180])), CardScanDone(true));
    assert b + [CardScanDone(true)] == Next();
    Unmarked(s, [], UserScan(true));
    Unmarked(s, a, CardTrigger([5180]));
    Unmarked(s, b, CardScanDone(true));
    NothingYet(s);
  }

  lemma NothingYet(s: State)
    requires StationSpec.Fit(s)
    ensures NoSweep(s, []) && !MarkedIn(s, [], 2412) && !ReportedIn([], FIRST)
  {
  }

  lemma Unmarked(s: State, es: seq<Event>, e: Event)
    requires StationSpec.Fit(s) && !e.CardDone? && !e.CardResult? && (e.CardTrigger? ==> 2412 !in e.freqs)
    ensures NoSweep(s, es) ==> NoSweep(s, es + [e])
    ensures !MarkedIn(s, es, 2412) ==> !MarkedIn(s, es + [e], 2412)
    ensures !ReportedIn(es, FIRST) ==> !ReportedIn(es + [e], FIRST)
  {
    hide Run;
    assert (es + [e])[..|es|] == es;
  }

  lemma FirstIsMarked(key: Psk)
    ensures var s := LeftMarked(key); var sc := s.table.slots[0];
      StationSpec.Fit(s) && s.scan == NoScan && Live(sc) && sc.bssid == FIRST && sc.freq == 2412 && sc.flags.stale
  {
    hide File;
  }

  // A run from the start at whose end the AP on 2412 is dropped from the table, although
  // the scan that ends there was of 5180 alone.
  lemma BrokenScanCosts(key: Psk)
    ensures Timely(Start(File(key)), Listen() + Breaks())
    ensures var s := Run(Start(File(key)), Listen() + Breaks()).s;
      && s.scan == NoScan && Live(s.table.slots[0]) && s.table.slots[0].bssid == FIRST && s.table.slots[0].freq == 2412
      && !MarkedIn(s, Next(), 2412) && !ReportedIn(Next(), FIRST) && Run(s, Next()).s.scan == StationSpec.Dumping
      && var now := Step(Run(s, Next()).s, CardDone).s.table.slots[0]; !(Live(now) && now.bssid == FIRST)
  {
    hide Step, Run, File, Listen, LeftMarked, Next, Sound, MarkedIn;
    var s := LeftMarked(key);
    BreaksEnds(key);
    FirstIsMarked(key);
    NextEnds(s);
    StartIsClean(File(key));
    TableStaysSound(Start(File(key)), Listen() + Breaks());
    SweepLeaves(s, Next(), 0);
  }
}

/** A run of the station from its very start up to its first attempt, event by event: a scan
    that hears two access points of an SSID "A" and a stronger one of an SSID "B" whose PSK
    is in the file, and the user's command to connect to A. */
module StationSetup {
  import opened Octets
  import opened Scan
  import opened StaIes
  import opened ScanTable
  import opened ApSelect
  import opened PskText
  import opened PskMap
  import opened PskEffects
  import opened StationSpec
  import opened StationRuns
  import opened StationPicks
  import opened StationWaits
  import opened Seqs
  import opened Wrappers

  // ---- Runs, one event at a time ----

  lemma RunNone(s: State)
    requires StationSpec.Fit(s)
    ensures Run(s, []) == Result(s, [])
  {
  }

  lemma RunMore(s: State, es: seq<Event>, e: Event)
    requires StationSpec.Fit(s)
    ensures var r := Run(s, es); Run(s, es + [e]) == Then(r.acts, Step(r.s, e))
  {
    hide Step;
    assert (es + [e])[..|es|] == es;
  }

  lemma {:induction false} RunInTwo(s: State, a: seq<Event>, b: seq<Event>)
    requires StationSpec.Fit(s)
    ensures Run(s, a + b) == Then(Run(s, a).acts, Run(Run(s, a).s, b))
    decreases |b|
  {
    hide Step;
    if b == [] {
      assert a + b == a;
    } else {
      var n := |b| - 1;
      RunInTwo(s, a, b[..n]);
      assert (a + b)[..|a + b| - 1] == a + b[..n];
    }
  }

  // ---- What is heard ----

  const A: seq<Octet> := [65]
  const B: seq<Octet> := [66]
  const FIRST: Mac := [2, 0, 0, 0, 0, 1]
  const SECOND: Mac := [2, 0, 0, 0, 0, 2]
  const THIRD: Mac := [2, 0, 0, 0, 0, 3]

  const WPA2 := NO_TYPES.(psk := true, pairCcmp := true, groupCcmp := true)

  ghost function Elements(ssid: seq<Octet>): seq<Octet>
    requires |ssid| == 1
  {
    EncodeIes([Ie(0, ssid), Ie(48, EncodeRsn(SUITE_CCMP, [SUITE_CCMP], [AKM_PSK], [0, 0]))])
  }

  ghost function Beacon(mac: Mac, ssid: seq<Octet>, signal: int): Report
    requires |ssid| == 1
  {
    Report(mac, 2412, signal, Elements(ssid))
  }

  // An SSID of one byte in a slot that had none.
  function Called(sc: Scan, ssid: seq<Octet>): Scan
    requires |ssid| == 1
  {
    sc.(slen := 1, ssid := ssid + Fill(31, 0))
  }

  // The slot of such a beacon.
  function Heard(mac: Mac, ssid: seq<Octet>, signal: int): Scan
    requires |ssid| == 1
  {
    Called(EMPTY.(bssid := mac, freq := 2412, signal := signal, types := WPA2), ssid)
  }

  lemma RsnFits()
    ensures |EncodeRsn(SUITE_CCMP, [SUITE_CCMP], [AKM_PSK], [0, 0])| < 256
  {
  }

  lemma ElementsOfTwo(sc: Scan, a: Ie, b: Ie)
    requires |a.payload| < 256 && |b.payload| < 256
    ensures ApplyIes(sc, EncodeIes([a, b])) == ApplyIe(ApplyIe(sc, a.tag, a.payload), b.tag, b.payload)
  {
    hide ApplyIe, ApplyIes;
    IesOfList(sc, [a, b]);
    assert [a, b][1..] == [b] && [b][1..] == [];
    var once := ApplyIe(sc, a.tag, a.payload);
    assert FoldIes(sc, [a, b]) == FoldIes(once, [b]) == FoldIes(ApplyIe(once, b.tag, b.payload), []);
  }

  lemma TrimmedOne(s: seq<Octet>)
    requires |s| == 1 && s[0] != 0
    ensures s[..1] == s && Trimmed(s) == 1
  {
  }

  lemma NameIsTaken(sc: Scan, ssid: seq<Octet>)
    requires |ssid| == 1 && ssid[0] != 0 && sc.ssid[1..] == Fill(31, 0)
    ensures WithSsid(sc, ssid) == Called(sc, ssid)
  {
    hide Trimmed, Fill;
    TrimmedOne(ssid);
  }

  lemma RsnIsTaken(sc: Scan)
    requires sc.types == NO_TYPES
    ensures ApplyIe(sc, 48, EncodeRsn(SUITE_CCMP, [SUITE_CCMP], [AKM_PSK], [0, 0])) == sc.(types := WPA2)
  {
    hide EncodeRsn, RsnTypes;
    RsnOfSuites(NO_TYPES, SUITE_CCMP, [SUITE_CCMP], [AKM_PSK], [0, 0]);
  }

  lemma NoNameYet()
    ensures ZERO_SSID[1..] == Fill(31, 0)
  {
  }

  lemma AppliedName(sc: Scan, ssid: seq<Octet>)
    ensures ApplyIe(sc, 0, ssid) == WithSsid(sc, ssid)
  {
    hide WithSsid, RsnTypes, VendorTypes;
  }

  lemma ElementsAreHeard(sc: Scan, ssid: seq<Octet>)
    requires |ssid| == 1 && ssid[0] != 0 && sc.ssid == ZERO_SSID && sc.types == NO_TYPES
    ensures ApplyIes(sc, Elements(ssid)) == Called(sc, ssid).(types := WPA2)
  {
    hide ApplyIe, EncodeRsn, ApplyIes, EncodeIes, WithSsid, Fill;
    RsnFits();
    ElementsOfTwo(sc, Ie(0, ssid), Ie(48, EncodeRsn(SUITE_CCMP, [SUITE_CCMP], [AKM_PSK], [0, 0])));
    NoNameYet();
    NameIsTaken(sc, ssid);
    AppliedName(sc, ssid);
    RsnIsTaken(Called(sc, ssid));
  }

  lemma BeaconIsHeard(mac: Mac, ssid: seq<Octet>, signal: int)
    requires |ssid| == 1 && ssid[0] != 0 && -0x8000 <= signal < 0x8000
    ensures Reported(EMPTY, Beacon(mac, ssid, signal)) == Heard(mac, ssid, signal)
  {
    hide ApplyIes, Elements, Fill;
    ElementsAreHeard(EMPTY.(bssid := mac, freq := 2412, signal := signal), ssid);
  }

  // The slots in use, from the front.
  function Row(l: seq<Scan>): (t: Table)
    requires |l| <= NSCANS
    ensures |t.slots| == NSCANS && t.n == |l|
  {
    Table(l + Fill(NSCANS - |l|, EMPTY), |l|)
  }

  lemma HeardNew(l: seq<Scan>, r: Report)
    requires |l| < NSCANS && forall k :: 0 <= k < |l| ==> Live(l[k]) && l[k].bssid != r.bssid
    ensures Take(Row(l), r) == Row(l + [Reported(EMPTY, r)])
  {
    hide Reported;
    var t := Row(l);
    assert forall k :: 0 <= k < |l| ==> t.slots[k] == l[k];
    assert First(t.slots, t.n, Has(r.bssid)) == t.n;
    assert First(t.slots, t.n, IsEmpty()) == t.n;
    var m := l + [Reported(EMPTY, r)];
    assert Fill(NSCANS - |l|, EMPTY)[1..] == Fill(NSCANS - |m|, EMPTY);
    assert Take(t, r).slots == Row(m).slots;
  }

  // ---- Up to the first attempt ----

  // The file holds a PSK for B alone.
  ghost function File(key: Psk): seq<seq<Octet>> { SaveLines([], B, key) }

  lemma NoEntries()
    ensures Entries([]) == map[]
  {
  }

  lemma FileHasB(key: Psk)
    ensures SoughtName(B) in Entries(File(key)) && SoughtName(A) !in Entries(File(key))
    ensures LoadLines(File(key), B) == Some(key)
  {
    hide Entries, SaveLines, Hex, SoughtName, LoadLines;
    assert Fits(B) by { assert B[..0] == []; }
    NoEntries();
    SaveThenLoad([], B, key);
    SaveRefines([], B, key);
    NamesDiffer(A, B);
  }

  // The SSID asked for, as struct ap holds it, and an AP with it.
  function Named(): SsidBuffer { A + Fill(31, 0) }

  function ApA(bssid: Mac, freq: int, types: Types): Ap {
    Ap(bssid, freq, 1, Named(), types, false, true, true, false, 0)
  }

  // The two of A as they are heard, and after the sweep, and after an attempt.
  function NearA(): Scan { Heard(FIRST, A, -5500) }
  function FarA(): Scan { Heard(SECOND, A, -6000) }
  function AnyB(): Scan { Heard(THIRD, B, -5000) }

  const JUDGED := NO_FLAGS.(seen := true, good := true)

  function Judged(sc: Scan, pass: bool): Scan { sc.(flags := JUDGED.(pass := pass)) }

  function Listed(first: bool, second: bool): Table {
    Row([Judged(NearA(), false).(flags := JUDGED.(tried := first)),
         Judged(FarA(), false).(flags := JUDGED.(tried := second)),
         Judged(AnyB(), true)])
  }

  // Before the user asks, and with the first attempt under way.
  ghost function Ready(key: Psk): State {
    Start(File(key)).(nlseq := 2, timer := true, table := Listed(false, false))
  }

  ghost function Trying(key: Psk): (s: State)
    ensures StationSpec.Fit(s)
  {
    Ready(key).(auth := Authenticating, nlseq := 3, mode := OneShot, timer := false, ap := ApA(FIRST, 2412, WPA2), psk := key,
                table := Listed(true, false))
  }

  // The scan main starts with.
  ghost function Listen(): seq<Event> {
    [Timer(true), CardScanDone(true),
     CardResult(Beacon(FIRST, A, -5500)), CardResult(Beacon(SECOND, A, -6000)), CardResult(Beacon(THIRD, B, -5000)),
     CardDone]
  }

  // And the user's command to connect to A with a PSK.
  ghost function Setup(key: Psk): seq<Event> { Listen() + [UserConnect(Some(A), Some(key))] }

  // The sweep.
  lemma {:induction false} NothingToDrop(t: Table, i: nat)
    requires t.n <= |t.slots| && forall k :: 0 <= k < |t.slots| ==> !t.slots[k].flags.stale
    ensures DropFrom(t, i) == t
    decreases t.n - i
  {
    if i < t.n {
      NothingToDrop(t, i + 1);
    }
  }

  ghost function Dumped(key: Psk, l: seq<Scan>): State
    requires |l| <= NSCANS
  {
    Start(File(key)).(scan := StationSpec.Dumping, scanseq := 2, nlseq := 2, timer := true, table := Row(l))
  }

  lemma ScanIsAsked(key: Psk)
    ensures Step(Start(File(key)), Timer(true)).s
         == Start(File(key)).(scan := Scanning, scanseq := 1, nlseq := 1, timer := true)
    ensures Step(Start(File(key)).(scan := Scanning, scanseq := 1, nlseq := 1, timer := true), CardScanDone(true)).s
         == Dumped(key, [])
  {
    hide SaveLines;
    assert Row([]).slots == Fill(NSCANS, EMPTY);
  }

  lemma ReportIsTaken(key: Psk, l: seq<Scan>, mac: Mac, ssid: seq<Octet>, signal: int)
    requires |l| < NSCANS && forall k :: 0 <= k < |l| ==> Live(l[k]) && l[k].bssid != mac
    requires |ssid| == 1 && ssid[0] != 0 && -0x8000 <= signal < 0x8000
    ensures Step(Dumped(key, l), CardResult(Beacon(mac, ssid, signal)))
         == Result(Dumped(key, l + [Heard(mac, ssid, signal)]), [])
  {
    hide SaveLines, Take, Row;
    BeaconIsHeard(mac, ssid, signal);
    HeardNew(l, Beacon(mac, ssid, signal));
  }

  lemma DumpEnds(key: Psk)
    ensures Step(Dumped(key, [NearA(), FarA(), AnyB()]), CardDone) == Result(Ready(key), [])
  {
    hide SaveLines, DropFrom, SoughtName, Entries;
    var s := Dumped(key, [NearA(), FarA(), AnyB()]);
    NothingToDrop(s.table, 0);
    FileHasB(key);
    assert NearA().ssid[..1] == A && FarA().ssid[..1] == A && AnyB().ssid[..1] == B;
    assert Swept(s).table.slots == Listed(false, false).slots;
  }

  // A search whose best slot can be used.
  lemma SearchTakes(s: State, i: nat)
    requires StationSpec.Fit(s) && s.mode != Neutral && BothIdle(s)
    requires IsBest(s.table.slots, s.table.n, FilterOf(s.ap), i) && Usable(s, i)
    ensures var t := SetCurrentAp(s, i).s;
      Reassess(s) == Result(t.(auth := Authenticating, nlseq := s.nlseq + 1),
                            [Picked(i), Authenticate(s.nlseq + 1, Who(t))])
  {
    hide IsBest, Usable, FilterOf, Best, SetCurrentAp;
    OneIsCandidate(s.table.slots, s.table.n, FilterOf(s.ap), i);
    BestIsUnique(s.table.slots, s.table.n, FilterOf(s.ap), i, Best(s.table.slots, s.table.n, FilterOf(s.ap)));
    BestIsCandidate(s, i);
    PickWorks(s, i);
    PickIsQuiet(s, i);
  }

  lemma BestIsCandidate(s: State, i: nat)
    requires StationSpec.Fit(s) && IsBest(s.table.slots, s.table.n, FilterOf(s.ap), i)
    ensures i < s.table.n && Candidate(s.table.slots[i], FilterOf(s.ap))
  {
  }

  // The connect command is configured, and the search takes the nearer AP of A.
  ghost function Asked(key: Psk): State {
    Ready(key).(mode := OneShot, timer := false, psk := key, ap := ApA(ZERO_MAC, 0, NO_TYPES))
  }

  lemma NoneTried(s: State)
    requires StationSpec.Fit(s) && forall k :: 0 <= k < NSCANS ==> !s.table.slots[k].flags.tried
    ensures Untried(s) == s
  {
    assert Untried(s).table.slots == s.table.slots;
  }

  lemma ListedUntried(key: Psk)
    ensures StationSpec.Fit(Ready(key)) && forall k :: 0 <= k < NSCANS ==> !Ready(key).table.slots[k].flags.tried
  {
    hide SaveLines;
  }

  // Fixing A where no slot was tried.
  lemma FixesA(s: State)
    requires StationSpec.Fit(s) && s.ap.ssid[1..] == Fill(31, 0)
    requires forall k :: 0 <= k < NSCANS ==> !s.table.slots[k].flags.tried
    ensures SetFixed(s, A) == Coded(ClearBssid(s.(ap := s.ap.(ssid := Named(), slen := 1, fixed := true))), Fine)
  {
    hide Untried, Fill;
    var ap := s.ap.(ssid := Named(), slen := 1, fixed := true);
    assert |A| == 1 && A + s.ap.ssid[|A|..] == Named();
    var c := SetFixed(s, A);
    assert c == Coded(Untried(ClearBssid(s.(ap := ap))), Fine);
    NoneTried(ClearBssid(s.(ap := ap)));
  }

  lemma CommandIsTaken(key: Psk)
    ensures Configure(Ready(key), Some(A), Some(key)) == Coded(Asked(key).(mode := Neutral, timer := true), Fine)
  {
    hide File, SetFixed, Listed, Fill;
    ListedUntried(key);
    NoNameYet();
    FixesA(ClearSsid(ClearBssid(Ready(key))));
  }

  lemma NearerIsBest(key: Psk)
    ensures IsBest(Asked(key).table.slots, 3, FilterOf(Asked(key).ap), 0) && Usable(Asked(key), 0)
  {
    hide SaveLines, LoadLines;
  }

  lemma AttemptStarts(key: Psk)
    ensures Step(Ready(key), UserConnect(Some(A), Some(key)))
         == Result(Trying(key), [Picked(0), Authenticate(3, Who(Trying(key)))])
  {
    hide SaveLines, Configure, IsBest, Usable, Reassess;
    CommandIsTaken(key);
    NearerIsBest(key);
    SearchTakes(Asked(key), 0);
    assert SetCurrentAp(Asked(key), 0).s.table.slots == Listed(true, false).slots;
  }

  lemma EndsMore(s: State, es: seq<Event>, t: State, e: Event)
    requires StationSpec.Fit(s) && Run(s, es).s == t
    ensures Run(s, es + [e]).s == Step(t, e).s
  {
    hide Step, Run;
    RunMore(s, es, e);
  }

  lemma DumpIsTaken(key: Psk, es: seq<Event>)
    requires Run(Start(File(key)), es).s == Dumped(key, [])
    ensures var s := Start(File(key));
      Run(s, es + [CardResult(Beacon(FIRST, A, -5500))] + [CardResult(Beacon(SECOND, A, -6000))]
             + [CardResult(Beacon(THIRD, B, -5000))]).s
      == Dumped(key, [NearA(), FarA(), AnyB()])
  {
    hide Step, Run, File, Heard, Beacon;
    HeardIsLive();
    var s := Start(File(key));
    var a, b, c := Beacon(FIRST, A, -5500), Beacon(SECOND, A, -6000), Beacon(THIRD, B, -5000);
    EndsMore(s, es, Dumped(key, []), CardResult(a));
    ReportIsTaken(key, [], FIRST, A, -5500);
    assert [] + [NearA()] == [NearA()];
    EndsMore(s, es + [CardResult(a)], Dumped(key, [NearA()]), CardResult(b));
    ReportIsTaken(key, [NearA()], SECOND, A, -6000);
    assert [NearA()] + [FarA()] == [NearA(), FarA()];
    EndsMore(s, es + [CardResult(a)] + [CardResult(b)], Dumped(key, [NearA(), FarA()]), CardResult(c));
    ReportIsTaken(key, [NearA(), FarA()], THIRD, B, -5000);
    assert [NearA(), FarA()] + [AnyB()] == [NearA(), FarA(), AnyB()];
  }

  lemma HeardIsLive()
    ensures Live(NearA()) && Live(FarA()) && NearA().bssid == FIRST && FarA().bssid == SECOND
    ensures FIRST != SECOND && FIRST != THIRD && SECOND != THIRD
  {
    assert FIRST[5] != SECOND[5] && FIRST[5] != THIRD[5] && SECOND[5] != THIRD[5];
  }

  lemma ListenEnds(key: Psk)
    ensures Run(Start(File(key)), Listen()).s == Ready(key) && Timely(Start(File(key)), Listen())
  {
    hide Step, Run, File, Heard, Beacon, Listed, Timely;
    var s := Start(File(key));
    var dump := [Timer(true)] + [CardScanDone(true)];
    RunNone(s);
    EndsMore(s, [], s, Timer(true));
    assert [] + [Timer(true)] == [Timer(true)];
    ScanIsAsked(key);
    EndsMore(s, [Timer(true)], s.(scan := Scanning, scanseq := 1, nlseq := 1, timer := true), CardScanDone(true));
    DumpIsTaken(key, dump);
    var heard := dump + [CardResult(Beacon(FIRST, A, -5500))] + [CardResult(Beacon(SECOND, A, -6000))]
                 + [CardResult(Beacon(THIRD, B, -5000))];
    EndsMore(s, heard, Dumped(key, [NearA(), FarA(), AnyB()]), CardDone);
    DumpEnds(key);
    assert heard + [CardDone] == Listen();
    FirstIsTimely(s);
    TimelyOn(s, [Timer(true)], Listen()[1..]);
    assert [Timer(true)] + Listen()[1..] == Listen();
  }

  lemma FirstIsTimely(s: State)
    requires StationSpec.Fit(s)
    ensures Timely(s, [Timer(true)])
  {
    hide Run;
    assert [Timer(true)][..0] == [];
  }

  lemma SetupEnds(key: Psk)
    ensures Run(Start(File(key)), Setup(key)).s == Trying(key) && Timely(Start(File(key)), Setup(key))
  {
    hide Step, Run, File, Listen, Timely, Ready, Trying;
    ListenEnds(key);
    EndsMore(Start(File(key)), Listen(), Ready(key), UserConnect(Some(A), Some(key)));
    AttemptStarts(key);
    TimelyOn(Start(File(key)), Listen(), [UserConnect(Some(A), Some(key))]);
  }
}

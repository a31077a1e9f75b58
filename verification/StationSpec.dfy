/** The connection machine, the scan machine and AP selection as one transition
    function (wsupp_netlink.c, wsupp_apsel.c, and the commands, timer and rfkill
    events that reach them): what each event does to the state and which commands it
    sends to the card and to the EAPOL code. */
module StationSpec {
  import opened Octets
  import opened Scan
  import opened ScanTable
  import opened ApSelect
  import opened PskText
  import opened PskMap
  import opened Seqs
  import opened Wrappers

  datatype Auth = Idle | Authenticating | Associating | Connecting | Connected | Disconnecting | NetDown | External
  datatype ScanPhase = NoScan | Scanning | Dumping
  datatype Mode = Exit | ExitReq | Neutral | OneShot | Active | Rescan

  // scanreq
  datatype Requests = Requests(one: bool, reconnect: bool, connect: bool)
  const NOTHING := Requests(false, false, false)

  // struct ap; tkip stands for tkipgroup and for the choice of ies.
  datatype Ap = Ap(bssid: Mac, freq: int, slen: SsidLen, ssid: SsidBuffer, types: Types,
                   tkip: bool, fixed: bool, unsaved: bool, success: bool, rescans: nat)

  // timer is whether main waits with a timeout (timerset); conf the text of the PSK file,
  // by lines; nlseq the sequence number of the last netlink command.
  datatype State = State(auth: Auth, scan: ScanPhase, req: Requests, scanseq: nat, nlseq: nat, mode: Mode,
                         rfkilled: bool, timer: bool, ap: Ap, psk: Psk, table: Table, conf: seq<seq<Octet>>)

  // What main starts from (wsupp.c:239), with a file of these lines.
  function Start(conf: seq<seq<Octet>>): (s: State)
    ensures Fit(s)
  {
    State(Idle, NoScan, NOTHING, 0, 0, Neutral, false, false,
          Ap(ZERO_MAC, 0, 0, ZERO_SSID, NO_TYPES, false, false, false, false, 0),
          ZERO_PSK, Table(Fill(NSCANS, EMPTY), 0), conf)
  }

  // What an attempt is for: the AP the card is told about, and the PSK and the kind of
  // group key the handshake is to use.
  datatype Target = Target(bssid: Mac, freq: int, ssid: seq<Octet>, psk: Psk, tkip: bool)

  datatype Act =
    | TriggerScan(sq: nat, freq: int)
    | Joined(freq: int)                 // a request added to a scan under way
    | GetScan(sq: nat)
    | Authenticate(sq: nat, who: Target)
    | Associate(sq: nat, who: Target)
    | Disconnect(sq: nat)
    | NewKey(sq: nat)
    | EapolPrime | EapolAllow | EapolReset
    | Picked(slot: nat)                 // set_current_ap; nothing is sent

  datatype Result = Result(s: State, acts: seq<Act>)

  // A call that can be refused.
  datatype Tried = Tried(s: State, acts: seq<Act>, ok: bool)

  function Then(acts: seq<Act>, r: Result): Result { Result(r.s, acts + r.acts) }

  function Who(s: State): Target { Target(s.ap.bssid, s.ap.freq, s.ap.ssid[..s.ap.slen], s.psk, s.ap.tkip) }

  // The SSID only counts when it is fixed.
  function FilterOf(ap: Ap): Filter { if ap.fixed then Filter(true, ap.slen, ap.ssid) else Filter(false, 0, ZERO_SSID) }

  // A table whose count is within its slots.
  predicate Fit(s: State) { |s.table.slots| == NSCANS && s.table.n <= NSCANS }

  function WithSlot(s: State, i: nat, sc: Scan): State
    requires Fit(s) && i < NSCANS
  {
    s.(table := s.table.(slots := s.table.slots[i := sc]))
  }

  // ---- Scans (wsupp_netlink.c:117-216) ----

  function ResetScan(s: State): State { s.(scan := NoScan, scanseq := 0, req := NOTHING) }

  // Reconnecting is asked for by a frequency, connecting by a negative number.
  function Ask(r: Requests, freq: int): Requests {
    r.(reconnect := r.reconnect || freq > 0, connect := r.connect || freq < 0)
  }

  // start_scan; sent tells whether nl_send took the message.
  function StartScan(s: State, freq: int, sent: bool): Tried {
    if s.scan == NoScan then
      var n := s.nlseq + 1;
      var req := Ask(s.req, freq).(one := s.req.one || freq > 0);
      if sent then Tried(s.(scan := Scanning, scanseq := n, nlseq := n, req := req), [TriggerScan(n, freq)], true)
      else Tried(s.(nlseq := n, req := NOTHING), [], false)
    else if s.req.one then Tried(s, [], false)
    else Tried(s.(req := Ask(s.req, freq)), [Joined(freq)], true)
  }

  function Scans(s: State, freq: int, sent: bool): Result {
    var t := StartScan(s, freq, sent);
    Result(t.s, t.acts)
  }

  // trigger_scan_dump
  function TriggerDump(s: State, sent: bool): Result {
    var n := s.nlseq + 1;
    if sent then Result(s.(scan := Dumping, scanseq := n, nlseq := n), [GetScan(n)])
    else Result(ResetScan(s.(nlseq := n)), [])
  }

  // ---- Connecting (wsupp_netlink.c:286-333, 393-414) ----

  function StartConnection(s: State): Tried {
    if s.auth != Idle || s.scan != NoScan then Tried(s, [], false)
    else
      var n := s.nlseq + 1;
      Tried(s.(auth := Authenticating, nlseq := n), [Authenticate(n, Who(s))], true)
  }

  function StartDisconnect(s: State): Tried {
    if s.auth == Idle || s.auth == NetDown || s.auth == Disconnecting then Tried(s, [], false)
    else
      var n := s.nlseq + 1;
      Tried(s.(auth := Disconnecting, nlseq := n), [Disconnect(n)], true)
  }

  // ---- Selection (wsupp_apsel.c:145-304) ----

  function ClearBssid(s: State): State {
    s.(ap := s.ap.(types := NO_TYPES, success := false, rescans := 0, bssid := ZERO_MAC))
  }

  function ClearSsid(s: State): State {
    s.(ap := s.ap.(slen := 0, freq := 0, fixed := false, ssid := ZERO_SSID, unsaved := false), psk := ZERO_PSK)
  }

  // set_current_ap on slot i
  function SetCurrentAp(s: State, i: nat): (t: Tried)
    requires Fit(s) && i < NSCANS
    ensures Fit(t.s) && t.acts == [Picked(i)]
  {
    var sc := s.table.slots[i];
    var w := WithSlot(s, i, sc.(flags := sc.flags.(tried := true)));
    var ap := s.ap.(success := false, freq := sc.freq, types := sc.types, bssid := sc.bssid);
    if !sc.types.pairCcmp then Tried(w.(ap := ap), [Picked(i)], false)
    else
      AdoptSsid(w.(ap := ap.(tkip := sc.types.groupTkip)), i)
  }

  // The rest of set_current_ap: without a fixed SSID the slot's is taken, and its PSK loaded.
  function AdoptSsid(s: State, i: nat): (t: Tried)
    requires Fit(s) && i < NSCANS
    ensures Fit(t.s) && t.acts == [Picked(i)]
  {
    if s.ap.fixed then Tried(s, [Picked(i)], true)
    else
      var sc := s.table.slots[i];
      var ap := s.ap.(slen := sc.slen, ssid := sc.ssid[..sc.slen] + s.ap.ssid[sc.slen..]);
      var ssid := ap.ssid[..ap.slen];
      Tried(s.(ap := ap, psk := LoadOver(s.conf, ssid, s.psk)), [Picked(i)], LoadLines(s.conf, ssid).Some?)
  }

  // How many of the first n slots are still good; each failed turn lowers it.
  function GoodCount(slots: seq<Scan>, n: nat): (c: nat)
    requires n <= |slots|
  {
    if n == 0 then 0 else GoodCount(slots, n - 1) + if slots[n - 1].flags.good then 1 else 0
  }

  lemma {:induction false} GoodLess(a: seq<Scan>, b: seq<Scan>, n: nat, i: nat)
    requires |a| == |b| && i < n <= |a| && a[i].flags.good && !b[i].flags.good
    requires forall k :: 0 <= k < n && k != i ==> a[k] == b[k]
    ensures GoodCount(b, n) == GoodCount(a, n) - 1
  {
    if i < n - 1 {
      GoodLess(a, b, n - 1, i);
    } else {
      GoodSame(a, b, n - 1);
    }
  }

  lemma {:induction false} GoodSame(a: seq<Scan>, b: seq<Scan>, n: nat)
    requires |a| == |b| && n <= |a| && forall k :: 0 <= k < n ==> a[k] == b[k]
    ensures GoodCount(a, n) == GoodCount(b, n)
  {
    if n > 0 {
      GoodSame(a, b, n - 1);
    }
  }

  // sc->flags &= ~SF_GOOD
  function NotGood(s: State, i: nat): State
    requires Fit(s) && i < NSCANS
  {
    var sc := s.table.slots[i];
    WithSlot(s, i, sc.(flags := sc.flags.(good := false)))
  }

  lemma TurnCostsGood(s: State, i: nat)
    requires Fit(s) && i < s.table.n && s.table.slots[i].flags.good
    ensures var u := NotGood(SetCurrentAp(s, i).s, i);
      Fit(u) && u.table.n == s.table.n && GoodCount(u.table.slots, u.table.n) == GoodCount(s.table.slots, s.table.n) - 1
  {
    hide LoadOver, LoadLines, LoadCode;
    var u := NotGood(SetCurrentAp(s, i).s, i);
    GoodLess(s.table.slots, u.table.slots, s.table.n, i);
  }

  // connect_to_something
  function ConnectToSomething(s: State): (t: Tried)
    requires Fit(s)
    ensures Fit(t.s)
    decreases GoodCount(s.table.slots, s.table.n)
  {
    var i := Best(s.table.slots, s.table.n, FilterOf(s.ap));
    if i < 0 then Tried(s, [], false)
    else
      var t := SetCurrentAp(s, i);
      var c := StartConnection(t.s);
      if t.ok && c.ok then Tried(c.s, t.acts + c.acts, true)
      else
        TurnCostsGood(s, i);
        var r := ConnectToSomething(NotGood(t.s, i));
        Tried(r.s, t.acts + r.acts, r.ok)
  }

  // reassess_wifi_situation (wsupp_apsel.c:467-497)
  function Reassess(s: State): (r: Result)
    requires Fit(s)
    ensures Fit(r.s)
  {
    if s.mode == Neutral || s.auth != Idle || s.scan != NoScan then Result(s, [])
    else
      var t := ConnectToSomething(s);
      if t.ok then Result(t.s, t.acts)
      else if t.s.mode == OneShot then Result(ClearSsid(ClearBssid(t.s)).(mode := Neutral), t.acts)
      else Result(t.s.(timer := true), t.acts)
  }

  // abort_connection (wsupp_netlink.c:408-414)
  function Abort(s: State): (r: Result)
    requires Fit(s)
    ensures Fit(r.s)
  {
    var t := StartDisconnect(s);
    if t.ok then Result(t.s, t.acts) else Reassess(s)
  }

  // find_current_ap (wsupp_apsel.c:206-224)
  function IsCurrent(ap: Ap): Scan -> bool {
    (sc: Scan) => sc.freq != 0 && SameSsid(sc, ap.slen, ap.ssid) && sc.bssid == ap.bssid
  }

  function FindCurrent(s: State): (i: nat)
    requires Fit(s)
    ensures i <= s.table.n
  {
    First(s.table.slots, s.table.n, IsCurrent(s.ap))
  }

  // reconnect_to_current_ap (wsupp_apsel.c:343-352)
  function Reconnect(s: State): (r: Result)
    requires Fit(s)
    ensures Fit(r.s)
  {
    var w := if s.mode == Rescan then s.(mode := Active) else s;
    if FindCurrent(w) < w.table.n then
      var t := StartConnection(w);
      Result(t.s, t.acts)
    else Reassess(w)
  }

  // rescan_current_ap (wsupp_apsel.c:334-341)
  function RescanCurrent(s: State, sent: bool): Result {
    var w := s.(ap := s.ap.(success := false), mode := Rescan);
    Scans(w, w.ap.freq, sent)
  }

  // try_some_other_ap (wsupp_apsel.c:354-362)
  function TryOther(s: State): (r: Result)
    requires Fit(s)
    ensures Fit(r.s)
  {
    var w := ClearBssid(s);
    Reassess(if w.ap.fixed then w else ClearSsid(w))
  }

  // What handle_disconnect goes on with unless it exits.
  function AfterLoss(s: State): State { s.(timer := false, mode := if s.mode == Rescan then Active else s.mode) }

  // handle_disconnect (wsupp_apsel.c:389-414)
  function HandleDisconnect(s: State, sent: bool): (r: Result)
    requires Fit(s)
    ensures Fit(r.s)
  {
    if s.mode == ExitReq || s.mode == Exit then Result(s.(mode := Exit, timer := false), [])
    else
      var w := AfterLoss(s);
      if w.mode == Active then
        if w.ap.success then RescanCurrent(w, sent) else TryOther(w)
      else Result(ClearSsid(ClearBssid(w)), [])
  }

  // snap_to_disabled (wsupp_netlink.c:339-349)
  function SnapDisabled(s: State, sent: bool): (r: Result)
    requires Fit(s)
    ensures Fit(r.s)
  {
    Then([EapolReset], HandleDisconnect(s.(mode := Neutral, auth := External), sent))
  }

  // ---- Messages from the card (wsupp_netlink.c:248-284, 356-426, 489-579) ----

  function OnAuthenticate(s: State, sent: bool): (r: Result)
    requires Fit(s)
    ensures Fit(r.s)
  {
    if s.auth == External then Result(s, [])
    else if s.auth != Authenticating then SnapDisabled(s, sent)
    else
      var n := s.nlseq + 1;
      Result(s.(auth := Associating, nlseq := n), [EapolPrime, Associate(n, Who(s))])
  }

  // aborted: the EAPOL code was waiting to send packet 2/4 and failed to.
  function OnAssociate(s: State, aborted: bool, sent: bool): (r: Result)
    requires Fit(s)
    ensures Fit(r.s)
  {
    if s.auth == External then Result(s, [])
    else if s.auth != Associating then SnapDisabled(s, sent)
    else
      var r := if aborted then Abort(s) else Result(s, []);
      Result(r.s.(auth := Connecting), [EapolAllow] + r.acts)
  }

  function OnConnect(s: State, sent: bool): (r: Result)
    requires Fit(s)
    ensures Fit(r.s)
  {
    if s.auth == External then Result(s, [])
    else
      var r := if s.auth != Connecting then SnapDisabled(s, sent) else Result(s, []);
      Result(r.s.(auth := Connected), r.acts)
  }

  function OnDisconnect(s: State, sent: bool): (r: Result)
    requires Fit(s)
    ensures Fit(r.s)
  {
    if s.auth == Idle then Result(s, [])
    else Then([EapolReset], HandleDisconnect(s.(auth := Idle), sent))
  }

  // check_new_scan_results (wsupp_apsel.c:366-385) on one slot.
  function Checked(s: Scan, conf: seq<seq<Octet>>): Scan {
    if s.freq == 0 || s.flags.seen then s
    else if !Suitable(s.types) then s.(flags := s.flags.(seen := true))
    else
      var known := SoughtName(s.ssid[..s.slen]) in Entries(conf);
      s.(flags := s.flags.(seen := true, good := true, pass := s.flags.pass || known))
  }

  function CheckNew(s: State): State
    requires Fit(s)
  {
    var t := s.table;
    s.(table := t.(slots := seq(NSCANS, k requires 0 <= k < NSCANS =>
                                if k < t.n then Checked(t.slots[k], s.conf) else t.slots[k])))
  }

  lemma {:induction false} DropFits(t: Table, i: nat)
    requires t.n <= |t.slots|
    ensures |DropFrom(t, i).slots| == |t.slots| && DropFrom(t, i).n <= t.n
    decreases t.n - i
  {
    if i < t.n {
      DropFits(if t.slots[i].flags.stale then Free(t, i) else t, i + 1);
    }
  }

  // The table once a dump is complete: stale slots gone, new ones judged.
  function Swept(s: State): (u: State)
    requires Fit(s)
    ensures Fit(u)
  {
    DropFits(s.table, 0);
    CheckNew(ResetScan(s).(table := Drop(s.table)))
  }

  // genl_done
  function OnDone(s: State): (r: Result)
    requires Fit(s)
    ensures Fit(r.s)
  {
    if s.scan != Dumping then Result(s, [])
    else if s.req.reconnect then Reconnect(Swept(s))
    else if s.req.connect then Reassess(Swept(s))
    else Result(Swept(s), [])
  }

  const ENETDOWN := 100
  const ENOENT := 2

  // snap_to_netdown
  function SnapNetDown(s: State): State {
    if s.rfkilled then ResetScan(s).(auth := Idle) else ResetScan(s).(auth := NetDown, timer := true)
  }

  // handle_auth_error
  function OnAuthError(s: State, err: int, sent: bool): (r: Result)
    requires Fit(s)
    ensures Fit(r.s)
  {
    if s.auth == Disconnecting then Reassess(s.(auth := Idle))
    else if s.auth == Authenticating && err == -ENOENT then Scans(s.(auth := Idle), s.ap.freq, sent)
    else Abort(s)
  }

  // genl_error: err answers the command numbered sq.
  function OnError(s: State, err: int, sq: nat, sent: bool): (r: Result)
    requires Fit(s)
    ensures Fit(r.s)
  {
    if err == -ENETDOWN then Result(SnapNetDown(s), [])
    else if sq == s.scanseq then Result(if err == 0 then s else ResetScan(s), [])
    else if s.auth != Idle then OnAuthError(s, err, sent)
    else Result(s, [])
  }

  // ---- EAPOL, timer, rfkill, signals ----

  // The slot of the AP just connected to may be tried again, and has a PSK when that is
  // about to be saved.
  function Noted(s: State): (r: State)
    requires Fit(s)
    ensures Fit(r)
  {
    var i := FindCurrent(s);
    if i == s.table.n then s
    else
      var sc := s.table.slots[i];
      WithSlot(s, i, sc.(flags := sc.flags.(tried := false, pass := sc.flags.pass || s.ap.unsaved)))
  }

  // A PSK that came with the command goes to the file once it has proved right.
  function Saved(s: State): State {
    var conf := if s.ap.unsaved then SaveLines(s.conf, s.ap.ssid[..s.ap.slen], s.psk) else s.conf;
    s.(conf := conf, ap := s.ap.(unsaved := false))
  }

  // upload_ptk and upload_gtk, then handle_connect (wsupp_apsel.c:306-332).
  function OnEapolDone(s: State): (r: Result)
    requires Fit(s)
    ensures Fit(r.s)
  {
    var n := s.nlseq;
    var w := Noted(s.(nlseq := n + 2, timer := true, ap := s.ap.(success := true, fixed := true),
                      mode := if s.mode == Rescan || s.mode == OneShot then Active else s.mode));
    Result(Saved(w), [NewKey(n + 1), NewKey(n + 2)])
  }

  // routine_bg_scan (wsupp_apsel.c:438-442)
  function BackgroundScan(s: State, sent: bool): Result {
    var r := Scans(s, 0, sent);
    r.(s := r.s.(timer := true))
  }

  // routine_fg_scan (wsupp_apsel.c:444-465)
  function ForegroundScan(s: State, sent: bool): Result {
    var s := s.(timer := true);
    if !s.ap.fixed then Scans(s, 0, sent)
    else if s.ap.freq != 0 then FixedScan(s, sent)
    else Scans(s, -1, sent)
  }

  function ScanCounted(s: State, sent: bool): Result {
    if s.ap.rescans % 6 != 0 then Scans(s, s.ap.freq, sent) else Scans(s, -1, sent)
  }

  // Mostly the one frequency, every sixth time all of them, and after thirty times the
  // frequency is given up.
  function FixedScan(s: State, sent: bool): Result {
    var k := s.ap.rescans + 1;
    var w := s.(ap := s.ap.(rescans := k));
    var r := ScanCounted(w, sent);
    if k >= 30 then r.(s := r.s.(ap := r.s.ap.(freq := 0, rescans := 0))) else r
  }

  // timer_expired (wsupp.c:179-197)
  function OnTimer(s: State, sent: bool): (r: Result)
    requires Fit(s)
    ensures Fit(r.s)
  {
    var s := s.(timer := false);
    if s.auth == NetDown then Result(if s.rfkilled then s.(auth := Idle) else s.(mode := Exit), [])
    else if s.auth == Connected then BackgroundScan(s, sent)
    else if s.auth != Idle then Abort(s)
    else ForegroundScan(s, sent)
  }

  // handle_rfrestored (wsupp_apsel.c:422-433)
  function OnRfRestored(s: State, sent: bool): (r: Result)
    requires Fit(s)
    ensures Fit(r.s)
  {
    var s := s.(rfkilled := false);
    if s.auth != NetDown then Result(s, [])
    else if s.mode == Rescan then RescanCurrent(s.(auth := Idle), sent)
    else Reassess(s.(auth := Idle))
  }

  // xshutdown (wsupp.c:199-219). A second request quits on the spot, after a disconnect
  // unless idle (wsupp_netlink.c:80-98); the exit mode stands for the end of the process.
  function OnSigTerm(s: State): Result {
    if s.mode == Exit || s.mode == ExitReq then
      if s.auth == Idle then Result(s.(mode := Exit), [])
      else Result(s.(mode := Exit, nlseq := s.nlseq + 1), [Disconnect(s.nlseq + 1)])
    else
      var t := StartDisconnect(s);
      Result(t.s.(mode := if t.ok then ExitReq else Exit), t.acts)
  }

  // ---- Commands from the user (wsupp_cntrl.c:276-384) ----

  // reset_scan_counters
  function Untried(s: State): State
    requires Fit(s)
  {
    var t := s.table;
    s.(table := t.(slots := seq(NSCANS, k requires 0 <= k < NSCANS =>
                                if k < t.n then FreshSlot(t.slots[k], FilterOf(s.ap)) else t.slots[k])))
  }

  function FreshSlot(sc: Scan, f: Filter): Scan {
    if sc.freq != 0 && (f.fixed ==> SameSsid(sc, f.slen, f.ssid)) then sc.(flags := sc.flags.(tried := false)) else sc
  }

  // A configuring call and its error code.
  datatype Coded = Coded(s: State, err: Code)

  // set_fixed
  function SetFixed(s: State, ssid: seq<Octet>): (c: Coded)
    requires Fit(s)
    ensures Fit(c.s)
  {
    if |ssid| > SSIDLEN then Coded(s, NameTooLong)
    else
      var ap := s.ap.(ssid := ssid + s.ap.ssid[|ssid|..], slen := |ssid|, fixed := true);
      Coded(Untried(ClearBssid(s.(ap := ap))), Fine)
  }

  function SetFixedSaved(s: State, ssid: seq<Octet>): (c: Coded)
    requires Fit(s)
    ensures Fit(c.s)
  {
    var w := s.(psk := LoadOver(s.conf, ssid, s.psk));
    var err := LoadCode(s.conf, ssid);
    if err != Fine then Coded(w, err)
    else
      var c := SetFixed(w, ssid);
      if c.err == Fine then c.(s := c.s.(ap := c.s.ap.(unsaved := false))) else c
  }

  function SetFixedGiven(s: State, ssid: seq<Octet>, key: Psk): (c: Coded)
    requires Fit(s)
    ensures Fit(c.s)
  {
    var c := SetFixed(s, ssid);
    if c.err == Fine then c.(s := c.s.(psk := key, ap := c.s.ap.(unsaved := true))) else c
  }

  // configure_station: the two attributes of the message, when present. Without a PSK the
  // file is asked first and the SSID's size second; with one, the PSK's size comes first.
  function Configure(s: State, ssid: Option<seq<Octet>>, psk: Option<seq<Octet>>): (c: Coded)
    requires Fit(s)
    ensures Fit(c.s)
  {
    var w := ClearSsid(ClearBssid(s));
    match (ssid, psk)
    case (None, _) => Coded(w, Fine)
    case (Some(id), None) => SetFixedSaved(w, id)
    case (Some(id), Some(key)) => if |key| == 32 then SetFixedGiven(w, id, key) else Coded(w, Invalid)
  }

  // What cmd_connect answers.
  function ConnectCode(s: State, ssid: Option<seq<Octet>>, psk: Option<seq<Octet>>): Code
    requires Fit(s)
  {
    if s.auth != Idle || s.scan != NoScan then Busy else Configure(s, ssid, psk).err
  }

  function OnUserConnect(s: State, ssid: Option<seq<Octet>>, psk: Option<seq<Octet>>): (r: Result)
    requires Fit(s)
    ensures Fit(r.s)
  {
    if s.auth != Idle || s.scan != NoScan then Result(s, [])
    else
      var c := Configure(s, ssid, psk);
      if c.err != Fine then Result(c.s, []) else Reassess(c.s.(mode := OneShot, timer := false))
  }

  function OnUserNeutral(s: State): Result {
    var t := StartDisconnect(s.(mode := Neutral));
    Result(if t.ok then t.s.(timer := false) else t.s, t.acts)
  }

  function Forgotten(sc: Scan, ssid: seq<Octet>): Scan {
    if sc.ssid[..sc.slen] == ssid then sc.(flags := sc.flags.(pass := false)) else sc
  }

  function OnForget(s: State, ssid: seq<Octet>): Result
    requires Fit(s)
  {
    if SoughtName(ssid) !in Entries(s.conf) then Result(s, [])
    else
      var t := s.table;
      Result(s.(conf := DropLines(s.conf, ssid),
                table := t.(slots := seq(NSCANS, k requires 0 <= k < NSCANS =>
                                         if k < t.n then Forgotten(t.slots[k], ssid) else t.slots[k]))), [])
  }

  // ---- One event ----

  // sent: whether nl_send takes the one scan command the event may lead to.
  datatype Event =
    | CardTrigger(freqs: seq<int>) | CardResult(report: Report) | CardScanDone(sent: bool) | CardScanAborted
    | CardAuthenticate(sent: bool) | CardAssociate(aborted: bool, sent: bool) | CardConnect(sent: bool)
    | CardDisconnect(sent: bool) | CardDone | CardError(err: int, sq: nat, sent: bool)
    | EapolAborts | EapolDone | EapolRekeyed
    | Timer(sent: bool) | RfKilled | RfRestored(sent: bool) | SigTerm
    | UserConnect(ssid: Option<seq<Octet>>, psk: Option<seq<Octet>>) | UserNeutral | UserScan(sent: bool)
    | UserForget(name: seq<Octet>)

  ghost function Step(s: State, e: Event): (r: Result)
    requires Fit(s)
    ensures Fit(r.s)
  {
    match e
    case CardTrigger(freqs) => Result(if s.scan == Scanning then s.(table := Mark(s.table, freqs)) else s, [])
    case CardResult(report) => Result(s.(table := Take(s.table, report)), [])
    case CardScanDone(sent) => if s.scan == Scanning then TriggerDump(s, sent) else Result(s, [])
    case CardScanAborted => Result(if s.scan == Scanning then ResetScan(s) else s, [])
    case CardAuthenticate(sent) => OnAuthenticate(s, sent)
    case CardAssociate(aborted, sent) => OnAssociate(s, aborted, sent)
    case CardConnect(sent) => OnConnect(s, sent)
    case CardDisconnect(sent) => OnDisconnect(s, sent)
    case CardDone => OnDone(s)
    case CardError(err, sq, sent) => OnError(s, err, sq, sent)
    case EapolAborts => Abort(s)
    case EapolDone => OnEapolDone(s)
    case EapolRekeyed => Result(s.(nlseq := s.nlseq + 1), [NewKey(s.nlseq + 1)])
    case Timer(sent) => OnTimer(s, sent)
    case RfKilled => Result(s.(rfkilled := true, timer := false), [])
    case RfRestored(sent) => OnRfRestored(s, sent)
    case SigTerm => OnSigTerm(s)
    case UserConnect(ssid, psk) => OnUserConnect(s, ssid, psk)
    case UserNeutral => OnUserNeutral(s)
    case UserScan(sent) => Scans(s, 0, sent)
    case UserForget(name) => OnForget(s, name)
  }
}

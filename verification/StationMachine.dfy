/** The station as the program keeps it (wsupp_netlink.c, wsupp_apsel.c, and the commands
    of wsupp_cntrl.c that configure it): global variables, the slot array, the PSK buffer
    and the text of the PSK file, updated in place by the handlers. Every method refines
    the function of StationSpec that describes it. */
module StationMachine {
  import opened Octets
  import opened Scan
  import StaIes
  import opened ScanTable
  import opened ScanSlots
  import opened ApSelect
  import opened PskText
  import opened PskMap
  import opened PskFile
  import opened S = StationSpec
  import opened Seqs
  import opened Wrappers

  class Station {
    var authstate: Auth
    var scanstate: ScanPhase
    var scanreq: Requests
    var scanseq: nat
    var nlseq: nat
    var opermode: Mode
    var rfkilled: bool
    var timerset: bool
    var ap: Ap
    const psk: array<Octet>
    const scans: Slots
    const conf: Config
    var sent: seq<Act>         // everything sent so far

    ghost predicate Valid()
      reads this, psk, scans, scans.scans, conf, conf.config
    {
      scans.Valid() && conf.Valid() && psk.Length == 32 && psk != conf.config
    }

    ghost function Now(): (s: State)
      requires Valid()
      reads this, psk, scans, scans.scans, conf, conf.config
      ensures Fit(s)
    {
      State(authstate, scanstate, scanreq, scanseq, nlseq, opermode, rfkilled, timerset, ap, psk[..], scans.Now(), conf.Now())
    }

    // The state main starts from, with the file's text in front of the block.
    constructor (block: array<Octet>, size: nat)
      requires size <= block.Length && Terminated(block[..size])
      ensures Valid() && conf.config == block && sent == []
      ensures Now() == Start(Lines(block[..size]))
    {
      authstate, scanstate, scanreq, scanseq, nlseq := Idle, NoScan, NOTHING, 0, 0;
      opermode, rfkilled, timerset, sent := Neutral, false, false, [];
      ap := Ap(ZERO_MAC, 0, 0, ZERO_SSID, NO_TYPES, false, false, false, false, 0);
      psk := new Octet[32](_ => 0);
      scans := new Slots();
      conf := new Config(block, size);
      new;
      assert psk[..] == ZERO_PSK;
      assert scans.scans[..] == Fill(NSCANS, EMPTY);
    }

    // Everything is now as r says, when it was was before.
    twostate predicate Did(r: Result)
      reads this, psk, scans, scans.scans, conf, conf.config
    {
      Valid() && Now() == r.s && sent == old(sent) + r.acts
    }

    // ---- Scans ----

    method ResetScanState()
      requires Valid()
      modifies `scanstate, `scanseq, `scanreq
      ensures Did(Result(ResetScan(old(Now())), []))
    {
      scanstate, scanseq, scanreq := NoScan, 0, NOTHING;
    }

    // start_scan
    method StartScan(freq: int, ok: bool) returns (r: bool)
      requires Valid()
      modifies `scanstate, `scanseq, `scanreq, `nlseq, `sent
      ensures Did(Scans(old(Now()), freq, ok)) && r == S.StartScan(old(Now()), freq, ok).ok
    {
      hide Lines, Terminated;
      if scanstate == NoScan {
        if freq > 0 { scanreq := scanreq.(reconnect := true); }
        if freq < 0 { scanreq := scanreq.(connect := true); }
      } else if scanreq.one {
        return false;
      } else {
        if freq > 0 { scanreq := scanreq.(reconnect := true); }
        if freq < 0 { scanreq := scanreq.(connect := true); }
        sent := sent + [Joined(freq)];
        return true;
      }
      nlseq := nlseq + 1;
      if freq > 0 { scanreq := scanreq.(one := true, reconnect := true); }
      if !ok {
        scanreq := NOTHING;
        return false;
      }
      sent := sent + [TriggerScan(nlseq, freq)];
      scanstate := Scanning;
      scanseq := nlseq;
      r := true;
    }

    // trigger_scan_dump
    method TriggerScanDump(ok: bool)
      requires Valid()
      modifies `scanstate, `scanseq, `scanreq, `nlseq, `sent
      ensures Did(TriggerDump(old(Now()), ok))
    {
      nlseq := nlseq + 1;
      if !ok {
        ResetScanState();
      } else {
        sent := sent + [GetScan(nlseq)];
        scanstate := Dumping;
        scanseq := nlseq;
      }
    }

    // ---- Connecting ----

    method StartConnection() returns (r: bool)
      requires Valid()
      modifies `authstate, `nlseq, `sent
      ensures var t := S.StartConnection(old(Now())); Did(Result(t.s, t.acts)) && r == t.ok
    {
      if authstate != Idle { return false; }
      if scanstate != NoScan { return false; }
      nlseq := nlseq + 1;
      sent := sent + [Authenticate(nlseq, Target(ap.bssid, ap.freq, ap.ssid[..ap.slen], psk[..], ap.tkip))];
      authstate := Authenticating;
      r := true;
    }

    method StartDisconnect() returns (r: bool)
      requires Valid()
      modifies `authstate, `nlseq, `sent
      ensures var t := S.StartDisconnect(old(Now())); Did(Result(t.s, t.acts)) && r == t.ok
    {
      hide Lines, Terminated;
      match authstate {
        case Idle | NetDown | Disconnecting => return false;
        case _ =>
      }
      nlseq := nlseq + 1;
      sent := sent + [Disconnect(nlseq)];
      authstate := Disconnecting;
      r := true;
    }

    // ---- Selection ----

    method ClearApBssid()
      requires Valid()
      modifies `ap
      ensures Did(Result(ClearBssid(old(Now())), []))
    {
      ap := ap.(types := NO_TYPES, success := false, rescans := 0);
      ap := ap.(bssid := ZERO_MAC);
    }

    method ClearApSsid()
      requires Valid()
      modifies `ap, psk
      ensures Did(Result(ClearSsid(old(Now())), []))
    {
      hide Lines, Terminated;
      ap := ap.(slen := 0, freq := 0, fixed := false, ssid := ZERO_SSID);
      forall k | 0 <= k < psk.Length { psk[k] := 0; }
      ap := ap.(unsaved := false);
      assert psk[..] == ZERO_PSK;
    }

    method SetCurrentAp(i: nat) returns (ok: bool)
      requires Valid() && i < NSCANS
      modifies `ap, `sent, psk, scans.scans
      ensures var t := S.SetCurrentAp(old(Now()), i); Did(Result(t.s, t.acts)) && ok == t.ok
    {
      hide AdoptSsid, Lines, Terminated, EMPTY;
      var sc := scans.scans[i];
      scans.scans[i] := sc.(flags := sc.flags.(tried := true));
      ap := ap.(success := false, freq := sc.freq, types := sc.types, bssid := sc.bssid);
      if !sc.types.pairCcmp {
        sent := sent + [Picked(i)];
        return false;
      }
      if sc.types.groupTkip {
        ap := ap.(tkip := true);
      } else {
        ap := ap.(tkip := false);
      }
      ok := TakeSsid(i);
    }

    // The rest of set_current_ap.
    method TakeSsid(i: nat) returns (ok: bool)
      requires Valid() && i < NSCANS
      modifies `ap, `sent, psk
      ensures var t := AdoptSsid(old(Now()), i); Did(Result(t.s, t.acts)) && ok == t.ok
    {
      hide LoadOver, LoadLines, LoadCode, Lines, Terminated;
      sent := sent + [Picked(i)];
      if ap.fixed { return true; }
      var sc := scans.scans[i];
      ap := ap.(slen := sc.slen, ssid := sc.ssid[..sc.slen] + ap.ssid[sc.slen..]);
      var err := conf.LoadPsk(ap.ssid[..ap.slen], psk);
      ok := err == Fine;
    }

    // sc->flags &= ~SF_GOOD
    method LoseGood(i: nat)
      requires Valid() && i < NSCANS
      modifies scans.scans
      ensures Did(Result(NotGood(old(Now()), i), []))
    {
      scans.scans[i] := scans.scans[i].(flags := scans.scans[i].flags.(good := false));
    }

    function Filter(): ApSelect.Filter
      reads this
    {
      FilterOf(ap)
    }

    // One turn of the loop of connect_to_something.
    method TryOne(i: nat) returns (r: bool)
      requires Valid() && i < NSCANS
      modifies `ap, `sent, `authstate, `nlseq, psk, scans.scans
      ensures r == Turn(old(Now()), i).ok
      ensures Did(Result(Turn(old(Now()), i).s, Turn(old(Now()), i).acts))
    {
      hide S.SetCurrentAp, NotGood, Lines, Terminated;
      var picked := SetCurrentAp(i);
      r := false;
      if picked { r := StartConnection(); }
      if !r { LoseGood(i); }
    }

    // connect_to_something
    method ConnectToSomething() returns (r: bool)
      requires Valid()
      modifies `ap, `sent, `authstate, `nlseq, psk, scans.scans
      ensures var t := S.ConnectToSomething(old(Now())); Did(Result(t.s, t.acts)) && r == t.ok
    {
      hide Turn, GoodCount, FilterOf, Best, IsBest, NoCandidate, S.ConnectToSomething, Rest, Lines, Terminated;
      ghost var whole := S.ConnectToSomething(Now());
      RestIsAll(Now());
      assert sent[|old(sent)|..] == [];
      var i := GetBestAp(scans.scans, scans.nscans, Filter());
      while i >= 0
        invariant Valid() && i == Best(scans.scans[..], scans.nscans, FilterOf(ap))
        invariant old(sent) <= sent
        invariant Rest(whole, Now(), sent[|old(sent)|..])
        decreases GoodCount(scans.scans[..], scans.nscans)
      {
        ghost var s, done := Now(), sent[|old(sent)|..];
        TurnIs(s, whole, done);
        var started := TryOne(i);
        assert sent[|old(sent)|..] == done + Turn(s, i).acts;
        if started { return true; }
        i := GetBestAp(scans.scans, scans.nscans, Filter());
      }
      SearchEnds(Now(), whole, sent[|old(sent)|..]);
      r := false;
    }

    // find_current_ap
    method FindCurrentAp() returns (i: int)
      requires Valid()
      ensures var j := FindCurrent(Now()); i == if j < scans.nscans then j else -1
    {
      var k := 0;
      while k < scans.nscans
        invariant 0 <= k <= scans.nscans
        invariant forall j :: 0 <= j < k ==> !IsCurrent(ap)(scans.scans[j])
      {
        var sc := scans.scans[k];
        if sc.freq != 0 && sc.slen == ap.slen && sc.ssid[..ap.slen] == ap.ssid[..ap.slen] && sc.bssid == ap.bssid {
          FirstIs(scans.scans[..], scans.nscans, IsCurrent(ap), k);
          return k;
        }
        k := k + 1;
      }
      FirstIs(scans.scans[..], scans.nscans, IsCurrent(ap), k);
      i := -1;
    }

    // reassess_wifi_situation
    method ReassessWifiSituation()
      requires Valid()
      modifies `ap, `sent, `authstate, `nlseq, `opermode, `timerset, psk, scans.scans
      ensures Did(Reassess(old(Now())))
    {
      hide S.ConnectToSomething, Lines, Terminated;
      if opermode == Neutral { return; }
      if authstate != Idle { return; }
      if scanstate != NoScan { return; }
      var started := ConnectToSomething();
      if started { return; }
      if opermode == OneShot {
        ClearApBssid();
        ClearApSsid();
        opermode := Neutral;
      } else {
        timerset := true;
      }
    }

    // abort_connection
    method AbortConnection()
      requires Valid()
      modifies `ap, `sent, `authstate, `nlseq, `opermode, `timerset, psk, scans.scans
      ensures Did(Abort(old(Now())))
    {
      hide Reassess, Lines, Terminated;
      var started := StartDisconnect();
      if started { return; }
      ReassessWifiSituation();
    }

    // reconnect_to_current_ap
    method ReconnectToCurrentAp()
      requires Valid()
      modifies `ap, `sent, `authstate, `nlseq, `opermode, `timerset, psk, scans.scans
      ensures Did(Reconnect(old(Now())))
    {
      hide Reassess, S.StartConnection, Lines, Terminated, IsCurrent;
      if opermode == Rescan { opermode := Active; }
      var i := FindCurrentAp();
      if i >= 0 {
        var started := StartConnection();
      } else {
        ReassessWifiSituation();
      }
    }

    // rescan_current_ap
    method RescanCurrentAp(ok: bool)
      requires Valid()
      modifies `ap, `opermode, `scanstate, `scanseq, `scanreq, `nlseq, `sent
      ensures Did(RescanCurrent(old(Now()), ok))
    {
      hide S.StartScan, Lines, Terminated;
      ap := ap.(success := false);
      opermode := Rescan;
      var started := StartScan(ap.freq, ok);
    }

    // try_some_other_ap
    method TrySomeOtherAp()
      requires Valid()
      modifies `ap, `sent, `authstate, `nlseq, `opermode, `timerset, psk, scans.scans
      ensures Did(TryOther(old(Now())))
    {
      hide Reassess, Lines, Terminated;
      ClearApBssid();
      if !ap.fixed { ClearApSsid(); }
      ReassessWifiSituation();
    }

    // handle_disconnect
    method HandleDisconnect(ok: bool)
      requires Valid()
      modifies this, psk, scans.scans
      ensures Did(S.HandleDisconnect(old(Now()), ok))
    {
      hide RescanCurrent, TryOther, Lines, Terminated;
      timerset := false;
      if opermode == ExitReq { opermode := Exit; }
      if opermode == Exit { return; }
      if opermode == Rescan { opermode := Active; }
      if opermode == Active {
        if ap.success {
          RescanCurrentAp(ok);
        } else {
          TrySomeOtherAp();
        }
      } else {
        ClearApBssid();
        ClearApSsid();
      }
    }

    // ---- Messages from the card ----

    method CmdTriggerScan(freqs: seq<int>)
      requires Valid()
      modifies scans.scans
      ensures Did(Step(old(Now()), CardTrigger(freqs)))
    {
      hide Mark, Lines, Terminated;
      if scanstate != Scanning { return; }
      scans.MarkStale(freqs);
    }

    // cmd_scan_results with NLM_F_MULTI; the elements are len bytes of buf.
    method CmdScanResult(bssid: Mac, freq: int, signal: int, buf: array<Octet>, off: nat, len: nat)
      requires Valid() && StaIes.Readable(buf, off, len)
      modifies scans, scans.scans
      ensures Did(Step(old(Now()), CardResult(Report(bssid, freq, signal, old(buf[off..off + len])))))
    {
      hide Take, Lines, Terminated;
      scans.ParseScanResult(bssid, freq, signal, buf, off, len);
    }

    // cmd_scan_results without it
    method CmdScanDone(ok: bool)
      requires Valid()
      modifies `scanstate, `scanseq, `scanreq, `nlseq, `sent
      ensures Did(Step(old(Now()), CardScanDone(ok)))
    {
      hide TriggerDump, Lines, Terminated;
      if scanstate == Scanning { TriggerScanDump(ok); }
    }

    method CmdScanAborted()
      requires Valid()
      modifies `scanstate, `scanseq, `scanreq
      ensures Did(Step(old(Now()), CardScanAborted))
    {
      if scanstate != Scanning { return; }
      ResetScanState();
    }

    method SnapToDisabled(ok: bool)
      requires Valid()
      modifies this, psk, scans.scans
      ensures Did(SnapDisabled(old(Now()), ok))
    {
      hide S.HandleDisconnect, Lines, Terminated;
      opermode := Neutral;
      authstate := External;
      sent := sent + [EapolReset];
      HandleDisconnect(ok);
    }

    method CmdAuthenticate(ok: bool)
      requires Valid()
      modifies this, psk, scans.scans
      ensures Did(OnAuthenticate(old(Now()), ok))
    {
      hide SnapDisabled, Lines, Terminated;
      if authstate == External { return; }
      if authstate != Authenticating {
        SnapToDisabled(ok);
        return;
      }
      sent := sent + [EapolPrime];
      nlseq := nlseq + 1;
      sent := sent + [Associate(nlseq, Target(ap.bssid, ap.freq, ap.ssid[..ap.slen], psk[..], ap.tkip))];
      authstate := Associating;
    }

    // aborted: packet 2/4 was waiting to be sent, and sending it failed.
    method CmdAssociate(aborted: bool, ok: bool)
      requires Valid()
      modifies this, psk, scans.scans
      ensures Did(OnAssociate(old(Now()), aborted, ok))
    {
      hide SnapDisabled, Abort, Lines, Terminated;
      if authstate == External { return; }
      if authstate != Associating {
        SnapToDisabled(ok);
        return;
      }
      sent := sent + [EapolAllow];
      assert [EapolAllow] + [] == [EapolAllow];
      if aborted { AbortConnection(); }
      authstate := Connecting;
    }

    method CmdConnect(ok: bool)
      requires Valid()
      modifies this, psk, scans.scans
      ensures Did(OnConnect(old(Now()), ok))
    {
      hide SnapDisabled, Lines, Terminated;
      if authstate == External { return; }
      if authstate != Connecting { SnapToDisabled(ok); }
      authstate := Connected;
    }

    method CmdDisconnect(ok: bool)
      requires Valid()
      modifies this, psk, scans.scans
      ensures Did(OnDisconnect(old(Now()), ok))
    {
      hide S.HandleDisconnect, Lines, Terminated;
      if authstate == Idle { return; }
      sent := sent + [EapolReset];
      authstate := Idle;
      HandleDisconnect(ok);
    }

    // check_new_scan_results
    method CheckNewScanResults()
      requires Valid()
      modifies scans.scans
      ensures Did(Result(CheckNew(old(Now())), []))
    {
      hide Suitable, Entries, Lines, Terminated;
      var i := 0;
      while i < scans.nscans
        invariant 0 <= i <= scans.nscans && Valid()
        invariant forall k :: 0 <= k < i ==> scans.scans[k] == Checked(old(scans.scans[k]), conf.Now())
        invariant forall k :: i <= k < NSCANS ==> scans.scans[k] == old(scans.scans[k])
      {
        CheckOne(i);
        i := i + 1;
      }
    }

    method CheckOne(i: nat)
      requires Valid() && i < NSCANS
      modifies scans.scans
      ensures scans.scans[..] == old(scans.scans[..])[i := Checked(old(scans.scans[i]), conf.Now())]
    {
      hide Entries, Lines, Terminated;
      var sc := scans.scans[i];
      if sc.freq == 0 { return; }
      if sc.flags.seen { return; }
      sc := sc.(flags := sc.flags.(seen := true));
      if Suitable(sc.types) {
        sc := sc.(flags := sc.flags.(good := true));
        var known := conf.GotPskFor(sc.ssid[..sc.slen]);
        if known { sc := sc.(flags := sc.flags.(pass := true)); }
      }
      scans.scans[i] := sc;
    }

    // genl_done
    method GenlDone()
      requires Valid()
      modifies this, psk, scans, scans.scans
      ensures Did(OnDone(old(Now())))
    {
      hide Reconnect, Reassess, Drop, CheckNew, Lines, Terminated;
      var current := scanreq;
      if scanstate != Dumping { return; }
      ResetScanState();
      scans.DropStale();
      CheckNewScanResults();
      if current.reconnect {
        ReconnectToCurrentAp();
      } else if current.connect {
        ReassessWifiSituation();
      }
    }

    // handle_auth_error
    method HandleAuthError(err: int, ok: bool)
      requires Valid()
      modifies this, psk, scans.scans
      ensures Did(OnAuthError(old(Now()), err, ok))
    {
      hide Reassess, Abort, S.StartScan, Lines, Terminated;
      if authstate == Disconnecting {
        authstate := Idle;
        ReassessWifiSituation();
      } else if authstate == Authenticating && err == -ENOENT {
        authstate := Idle;
        var started := StartScan(ap.freq, ok);
      } else {
        AbortConnection();
      }
    }

    // genl_error, handle_scan_error and snap_to_netdown
    method GenlError(err: int, sq: nat, ok: bool)
      requires Valid()
      modifies this, psk, scans.scans
      ensures Did(OnError(old(Now()), err, sq, ok))
    {
      hide OnAuthError, Lines, Terminated;
      if err == -ENETDOWN {
        ResetScanState();
        if rfkilled {
          authstate := Idle;
        } else {
          authstate := NetDown;
          timerset := true;
        }
      } else if sq == scanseq {
        if err != 0 { ResetScanState(); }
      } else if authstate != Idle {
        HandleAuthError(err, ok);
      }
    }

    // ---- EAPOL, timer, rfkill, signals ----

    // The search in handle_connect, and what it does to the slot found.
    method NoteCurrentAp()
      requires Valid()
      modifies scans.scans
      ensures Did(Result(Noted(old(Now())), []))
    {
      hide IsCurrent, Lines, Terminated, First;
      var i := FindCurrentAp();
      if i < 0 { return; }
      var sc := scans.scans[i];
      sc := sc.(flags := sc.flags.(tried := false));
      if ap.unsaved { sc := sc.(flags := sc.flags.(pass := true)); }
      scans.scans[i] := sc;
    }

    // The saving in handle_connect; the block has room for one more line.
    method SaveNewPsk()
      requires Valid() && conf.datalen + 100 <= conf.config.Length
      modifies `ap, conf, conf.config
      ensures Valid() && Did(Result(Saved(old(Now())), []))
    {
      hide SaveLines, Lines, Terminated;
      if ap.unsaved { conf.SavePsk(ap.ssid[..ap.slen], psk[..]); }
      ap := ap.(unsaved := false);
    }

    // upload_ptk and upload_gtk
    method UploadKeys()
      requires Valid()
      modifies `sent, `nlseq
      ensures var n := old(nlseq);
        Did(Result(old(Now()).(nlseq := n + 2), [NewKey(n + 1), NewKey(n + 2)]))
    {
      hide Lines, Terminated;
      nlseq := nlseq + 1;
      sent := sent + [NewKey(nlseq)];
      nlseq := nlseq + 1;
      sent := sent + [NewKey(nlseq)];
    }

    // What handle_connect sets first.
    method NowConnected()
      requires Valid()
      modifies `ap, `timerset, `opermode
      ensures var s := old(Now());
        Did(Result(s.(ap := s.ap.(success := true, fixed := true), timer := true,
                      mode := if s.mode == Rescan || s.mode == OneShot then Active else s.mode), []))
    {
      hide Lines, Terminated;
      ap := ap.(success := true, fixed := true);
      timerset := true;
      if opermode == Rescan { opermode := Active; }
      if opermode == OneShot { opermode := Active; }
    }

    // upload_ptk, upload_gtk and handle_connect; the block has room for one more line.
    method HandleConnect()
      requires Valid() && conf.datalen + 100 <= conf.config.Length
      modifies this, scans.scans, conf, conf.config
      ensures Valid() && Did(OnEapolDone(old(Now())))
    {
      hide Saved, Noted, Lines, Terminated;
      UploadKeys();
      NowConnected();
      NoteCurrentAp();
      SaveNewPsk();
    }

    // routine_bg_scan
    method RoutineBgScan(ok: bool)
      requires Valid()
      modifies this
      ensures Did(BackgroundScan(old(Now()), ok))
    {
      hide S.StartScan, Lines, Terminated;
      var started := StartScan(0, ok);
      timerset := true;
    }

    // routine_fg_scan
    method RoutineFgScan(ok: bool)
      requires Valid()
      modifies this
      ensures Did(ForegroundScan(old(Now()), ok))
    {
      hide S.StartScan, FixedScan, Lines, Terminated;
      var started;
      timerset := true;
      if !ap.fixed {
        started := StartScan(0, ok);
      } else if ap.freq != 0 {
        ScanFixed(ok);
      } else {
        started := StartScan(-1, ok);
      }
    }

    method ScanFixed(ok: bool)
      requires Valid()
      modifies this
      ensures Did(FixedScan(old(Now()), ok))
    {
      hide ScanCounted, Lines, Terminated;
      ap := ap.(rescans := ap.rescans + 1);
      CountedKeepsAp(Now(), ok);
      ScanByCount(ok);
      if ap.rescans >= 6 * 5 { ap := ap.(freq := 0, rescans := 0); }
    }

    method ScanByCount(ok: bool)
      requires Valid()
      modifies this
      ensures Did(ScanCounted(old(Now()), ok))
    {
      hide S.StartScan, Lines, Terminated;
      var started;
      if ap.rescans % 6 != 0 {
        started := StartScan(ap.freq, ok);
      } else {
        started := StartScan(-1, ok);
      }
    }

    // timer_expired (wsupp.c:179-197)
    method TimerExpired(ok: bool)
      requires Valid()
      modifies this, psk, scans.scans
      ensures Did(OnTimer(old(Now()), ok))
    {
      hide Abort, S.StartScan, ForegroundScan, Lines, Terminated;
      timerset := false;
      if authstate == NetDown {
        if !rfkilled {
          opermode := Exit;
        } else {
          authstate := Idle;
        }
        return;
      }
      if authstate == Connected {
        RoutineBgScan(ok);
      } else if authstate != Idle {
        AbortConnection();
      } else {
        RoutineFgScan(ok);
      }
    }

    // The key upload of a group rekey, upload_gtk from send_group_2 (wsupp_eapol.c:542)
    method RekeyGroup()
      requires Valid()
      modifies `sent, `nlseq
      ensures Did(Step(old(Now()), EapolRekeyed))
    {
      hide Lines, Terminated;
      nlseq := nlseq + 1;
      sent := sent + [NewKey(nlseq)];
    }

    // handle_event of wsupp_rfkill.c:102-104
    method HandleRfKilled()
      requires Valid()
      modifies `rfkilled, `timerset
      ensures Did(Step(old(Now()), RfKilled))
    {
      hide Lines, Terminated;
      rfkilled := true;
      timerset := false;
    }

    // handle_rfrestored
    method HandleRfRestored(ok: bool)
      requires Valid()
      modifies this, psk, scans.scans
      ensures Did(OnRfRestored(old(Now()), ok))
    {
      hide Reassess, RescanCurrent, Lines, Terminated;
      rfkilled := false;
      if authstate != NetDown { return; }
      authstate := Idle;
      if opermode == Rescan {
        RescanCurrentAp(ok);
      } else {
        ReassessWifiSituation();
      }
    }

    // xshutdown (wsupp.c:199-219)
    method Shutdown()
      requires Valid()
      modifies this
      ensures Did(OnSigTerm(old(Now())))
    {
      hide S.StartDisconnect, Lines, Terminated;
      match opermode {
        case Exit | ExitReq =>
          if authstate != Idle {
            nlseq := nlseq + 1;
            sent := sent + [Disconnect(nlseq)];
          }
          opermode := Exit;
          return;
        case _ =>
      }
      var started := StartDisconnect();
      opermode := if started then ExitReq else Exit;
    }

    // ---- Commands from the user ----

    // reset_scan_counters
    method ResetScanCounters()
      requires Valid()
      modifies scans.scans
      ensures Did(Result(Untried(old(Now())), []))
    {
      hide SameSsid, Lines, Terminated;
      var f := Filter();
      var i := 0;
      while i < scans.nscans
        invariant 0 <= i <= scans.nscans && Valid()
        invariant forall k :: 0 <= k < i ==> scans.scans[k] == FreshSlot(old(scans.scans[k]), f)
        invariant forall k :: i <= k < NSCANS ==> scans.scans[k] == old(scans.scans[k])
      {
        var sc := scans.scans[i];
        if sc.freq != 0 && (!f.fixed || SameSsid(sc, f.slen, f.ssid)) {
          scans.scans[i] := sc.(flags := sc.flags.(tried := false));
        }
        i := i + 1;
      }
    }

    // set_fixed
    method SetFixed(ssid: seq<Octet>) returns (err: Code)
      requires Valid()
      modifies `ap, scans.scans
      ensures var c := S.SetFixed(old(Now()), ssid); Did(Result(c.s, [])) && err == c.err
    {
      hide Untried, Lines, Terminated;
      if |ssid| > SSIDLEN { return NameTooLong; }
      ap := ap.(ssid := ssid + ap.ssid[|ssid|..], slen := |ssid|);
      ap := ap.(fixed := true);
      ClearApBssid();
      ResetScanCounters();
      err := Fine;
    }

    // set_fixed_saved
    method SetFixedSaved(ssid: seq<Octet>) returns (err: Code)
      requires Valid()
      modifies `ap, psk, scans.scans
      ensures var c := S.SetFixedSaved(old(Now()), ssid); Did(Result(c.s, [])) && err == c.err
    {
      hide LoadOver, LoadCode, S.SetFixed, Lines, Terminated;
      err := conf.LoadPsk(ssid, psk);
      if err != Fine { return; }
      err := SetFixed(ssid);
      if err != Fine { return; }
      ap := ap.(unsaved := false);
    }

    // set_fixed_given
    method SetFixedGiven(ssid: seq<Octet>, key: Psk) returns (err: Code)
      requires Valid()
      modifies `ap, psk, scans.scans
      ensures var c := S.SetFixedGiven(old(Now()), ssid, key); Did(Result(c.s, [])) && err == c.err
    {
      hide S.SetFixed, Lines, Terminated;
      err := SetFixed(ssid);
      if err != Fine { return; }
      forall k | 0 <= k < 32 { psk[k] := key[k]; }
      assert psk[..] == key;
      ap := ap.(unsaved := true);
    }

    // configure_station with reset_station
    method ConfigureStation(ssid: Option<seq<Octet>>, key: Option<seq<Octet>>) returns (err: Code)
      requires Valid()
      modifies `ap, psk, scans.scans
      ensures var c := Configure(old(Now()), ssid, key); Did(Result(c.s, [])) && err == c.err
    {
      hide S.SetFixedSaved, S.SetFixedGiven, Lines, Terminated;
      ClearApBssid();
      ClearApSsid();
      if ssid == None { return Fine; }
      if key == None {
        err := SetFixedSaved(ssid.value);
      } else if |key.value| == 32 {
        err := SetFixedGiven(ssid.value, key.value);
      } else {
        err := Invalid;
      }
    }

    // cmd_connect of wsupp_cntrl.c
    method UserConnects(ssid: Option<seq<Octet>>, key: Option<seq<Octet>>) returns (err: Code)
      requires Valid()
      modifies this, psk, scans.scans
      ensures Did(OnUserConnect(old(Now()), ssid, key)) && err == ConnectCode(old(Now()), ssid, key)
    {
      hide Configure, Reassess, Lines, Terminated;
      if authstate != Idle { return Busy; }
      if scanstate != NoScan { return Busy; }
      err := ConfigureStation(ssid, key);
      if err != Fine { return; }
      opermode := OneShot;
      timerset := false;
      ReassessWifiSituation();
    }

    // cmd_neutral
    method UserGoesNeutral()
      requires Valid()
      modifies this
      ensures Did(OnUserNeutral(old(Now())))
    {
      hide S.StartDisconnect, Lines, Terminated;
      opermode := Neutral;
      var started := StartDisconnect();
      if started { timerset := false; }
    }

    // cmd_forget
    method UserForgets(ssid: seq<Octet>)
      requires Valid()
      modifies scans.scans, conf, conf.config
      ensures Valid() && Did(OnForget(old(Now()), ssid))
    {
      hide DropLines, Entries, Lines, Terminated;
      var found := conf.DropPsk(ssid);
      if !found { return; }
      var i := 0;
      while i < scans.nscans
        invariant 0 <= i <= scans.nscans && Valid() && conf.Now() == DropLines(old(conf.Now()), ssid)
        invariant forall k :: 0 <= k < i ==> scans.scans[k] == Forgotten(old(scans.scans[k]), ssid)
        invariant forall k :: i <= k < NSCANS ==> scans.scans[k] == old(scans.scans[k])
      {
        var sc := scans.scans[i];
        if sc.slen == |ssid| && sc.ssid[..sc.slen] == ssid {
          scans.scans[i] := sc.(flags := sc.flags.(pass := false));
        }
        i := i + 1;
      }
    }
  }

  // What one turn of the loop does: an attempt that starts, or the slot's loss of SF_GOOD.
  function Turn(s: State, i: nat): Tried
    requires Fit(s) && i < NSCANS
  {
    var t := S.SetCurrentAp(s, i);
    var c := S.StartConnection(t.s);
    if t.ok && c.ok then Tried(c.s, t.acts + c.acts, true) else Tried(NotGood(t.s, i), t.acts, false)
  }

  // The whole search is what was done before plus the search from here.
  ghost predicate Rest(whole: Tried, s: State, done: seq<Act>)
    requires Fit(s)
  {
    var t := S.ConnectToSomething(s);
    whole == Tried(t.s, done + t.acts, t.ok)
  }

  lemma TurnIs(s: State, whole: Tried, done: seq<Act>)
    requires Fit(s) && Best(s.table.slots, s.table.n, FilterOf(s.ap)) >= 0 && Rest(whole, s, done)
    ensures var u := Turn(s, Best(s.table.slots, s.table.n, FilterOf(s.ap)));
      && (u.ok ==> whole == Tried(u.s, done + u.acts, true))
      && (!u.ok ==> Fit(u.s) && Rest(whole, u.s, done + u.acts)
                    && GoodCount(u.s.table.slots, u.s.table.n) < GoodCount(s.table.slots, s.table.n))
  {
    hide S.SetCurrentAp, S.StartConnection, NotGood, GoodCount;
    var i := Best(s.table.slots, s.table.n, FilterOf(s.ap));
    TurnCostsGood(s, i);
    var u := Turn(s, i);
    if !u.ok {
      var r := S.ConnectToSomething(u.s);
      assert done + (u.acts + r.acts) == done + u.acts + r.acts;
    }
  }

  lemma CountedKeepsAp(s: State, ok: bool)
    ensures ScanCounted(s, ok).s.ap == s.ap
  {
  }

  lemma RestIsAll(s: State)
    requires Fit(s)
    ensures Rest(S.ConnectToSomething(s), s, [])
  {
    hide S.ConnectToSomething;
  }

  lemma SearchEnds(s: State, whole: Tried, done: seq<Act>)
    requires Fit(s) && Best(s.table.slots, s.table.n, FilterOf(s.ap)) < 0 && Rest(whole, s, done)
    ensures whole == Tried(s, done, false)
  {
    assert done + [] == done;
  }
}

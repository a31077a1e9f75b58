/** Which slots the station tries, over runs in which no scan result, no configuring
    command and no successful connection touches the scan table. */
module StationPicks {
  import opened Octets
  import opened Scan
  import opened ScanTable
  import opened ApSelect
  import opened PskText
  import opened PskMap
  import opened StationSpec
  import opened StationRuns
  import opened Wrappers
  import opened Seqs

  // The slots a history selected, in order.
  function Picks(acts: seq<Act>): seq<int> {
    if acts == [] then []
    else (if acts[0].Picked? then [acts[0].slot] else []) + Picks(acts[1..])
  }

  lemma {:induction false} PicksOfTwo(a: seq<Act>, b: seq<Act>)
    ensures Picks(a + b) == Picks(a) + Picks(b)
  {
    if a == [] {
      assert a + b == b;
    } else {
      PicksOfTwo(a[1..], b);
      assert (a + b)[1..] == a[1..] + b;
      Regroup(if a[0].Picked? then [a[0].slot] else [], Picks(a[1..]), Picks(b));
    }
  }

  lemma {:induction false} NonePicked(acts: seq<Act>)
    requires forall k :: 0 <= k < |acts| ==> !acts[k].Picked?
    ensures Picks(acts) == []
  {
    if acts != [] {
      NonePicked(acts[1..]);
    }
  }

  // From s to r, the slots selected are the best ones, one after another, and the table
  // shows it; failed says of each whether the attempt failed on the spot.
  ghost predicate Chose(s: State, r: Result, failed: seq<bool>)
    requires Fit(s)
  {
    && Picks(r.acts) == Choices(s.table.slots, s.table.n, FilterOf(s.ap), failed)
    && r.s.table == s.table.(slots := After(s.table.slots, s.table.n, FilterOf(s.ap), failed))
  }

  lemma PickShape(s: State, i: nat)
    requires Fit(s) && i < NSCANS
    ensures var t := SetCurrentAp(s, i);
      && FilterOf(t.s.ap) == FilterOf(s.ap)
      && t.s.table == s.table.(slots := s.table.slots[i := Used(s.table.slots[i], false)])
      && NotGood(t.s, i).table == s.table.(slots := s.table.slots[i := Used(s.table.slots[i], true)])
  {
    hide LoadOver, LoadLines, LoadCode;
  }

  lemma ConnectionPicksNone(s: State)
    ensures var t := StartConnection(s);
      Picks(t.acts) == [] && t.s.table == s.table && (!t.ok <==> !BothIdle(s)) && t.s.ap == s.ap
  {
  }

  // The loop of connect_to_something selects the best candidates one after another, and
  // gives up only when none is left.
  lemma {:induction false} SearchChooses(s: State) returns (failed: seq<bool>)
    requires Fit(s)
    ensures var t := ConnectToSomething(s);
      && Chose(s, Result(t.s, t.acts), failed)
      && FilterOf(t.s.ap) == FilterOf(s.ap)
      && (!t.ok ==> NoCandidate(t.s.table.slots, t.s.table.n, FilterOf(t.s.ap)))
    decreases GoodCount(s.table.slots, s.table.n)
  {
    hide SetCurrentAp, StartConnection, NoCandidate, GoodCount, FilterOf, NotGood, Used;
    var i := Best(s.table.slots, s.table.n, FilterOf(s.ap));
    if i < 0 {
      failed := [];
    } else {
      var t := SetCurrentAp(s, i);
      var c := StartConnection(t.s);
      PickShape(s, i);
      ConnectionPicksNone(t.s);
      if t.ok && c.ok {
        PicksOfTwo(t.acts, c.acts);
        failed := [false];
      } else {
        TurnCostsGood(s, i);
        var u := NotGood(t.s, i);
        NotGoodKeepsAp(t.s, i);
        var r := ConnectToSomething(u);
        var rest := SearchChooses(u);
        PicksOfTwo(t.acts, r.acts);
        failed := [true] + rest;
        assert failed[1..] == rest;
      }
    }
  }

  lemma NotGoodKeepsAp(s: State, i: nat)
    requires Fit(s) && i < NSCANS
    ensures Fit(NotGood(s, i)) && NotGood(s, i).ap == s.ap
  {
  }

  // A slot connect_to_something can start an attempt with.
  ghost predicate Usable(s: State, k: nat)
    requires Fit(s) && k < NSCANS
  {
    var sc := s.table.slots[k];
    && Candidate(sc, FilterOf(s.ap)) && sc.types.pairCcmp
    && (s.ap.fixed || LoadLines(s.conf, sc.ssid[..sc.slen]).Some?)
  }

  ghost predicate AnyUsable(s: State)
    requires Fit(s)
  {
    exists k: nat :: k < s.table.n && Usable(s, k)
  }

  lemma PickWorks(s: State, i: nat)
    requires Fit(s) && i < NSCANS && Candidate(s.table.slots[i], FilterOf(s.ap))
    ensures SetCurrentAp(s, i).ok <==> Usable(s, i)
    ensures SetCurrentAp(s, i).s.conf == s.conf && SetCurrentAp(s, i).s.ap.fixed == s.ap.fixed
    ensures s.ap.fixed ==> SetCurrentAp(s, i).s.psk == s.psk
  {
    hide LoadOver, LoadLines, Candidate;
    var sc := s.table.slots[i];
    var ssid := sc.ssid[..sc.slen] + s.ap.ssid[sc.slen..];
    assert ssid[..sc.slen] == sc.ssid[..sc.slen];
  }

  // With both machines idle, a search starts an attempt exactly when some slot is usable:
  // it never gives up early, and a slot that cannot be used does not stop it.
  lemma {:induction false} SearchStarts(s: State)
    requires Fit(s) && BothIdle(s)
    ensures ConnectToSomething(s).ok <==> AnyUsable(s)
    decreases GoodCount(s.table.slots, s.table.n)
  {
    hide SetCurrentAp, StartConnection, GoodCount, FilterOf, NotGood, Usable, Used;
    var i := Best(s.table.slots, s.table.n, FilterOf(s.ap));
    if i < 0 {
      NoneUsable(s);
    } else {
      var t := SetCurrentAp(s, i);
      PickShape(s, i);
      PickIsQuiet(s, i);
      PickWorks(s, i);
      ConnectionPicksNone(t.s);
      if !t.ok {
        TurnCostsGood(s, i);
        NotGoodKeepsAp(t.s, i);
        NotGoodIsQuiet(t.s, i);
        var u := NotGood(t.s, i);
        SearchStarts(u);
        SameUsable(s, u, i);
      }
    }
  }

  lemma NoneUsable(s: State)
    requires Fit(s) && NoCandidate(s.table.slots, s.table.n, FilterOf(s.ap))
    ensures !AnyUsable(s)
  {
  }

  lemma NotGoodIsQuiet(s: State, i: nat)
    requires Fit(s) && i < NSCANS
    ensures var u := NotGood(s, i);
      u.auth == s.auth && u.scan == s.scan && u.conf == s.conf && u.ap == s.ap && u.psk == s.psk
  {
  }

  // Giving up a slot that is not usable leaves the others as they were.
  lemma SameUsable(s: State, u: State, i: nat)
    requires Fit(s) && Fit(u) && i < s.table.n && !Usable(s, i)
    requires FilterOf(u.ap) == FilterOf(s.ap) && u.ap.fixed == s.ap.fixed && u.conf == s.conf
    requires u.table == s.table.(slots := s.table.slots[i := Used(s.table.slots[i], true)])
    ensures AnyUsable(u) <==> AnyUsable(s)
  {
    hide FilterOf, LoadLines;
    assert !Candidate(u.table.slots[i], FilterOf(u.ap));
    assert forall k: nat :: k < s.table.n && k != i ==> (Usable(u, k) <==> Usable(s, k));
    assert !Usable(u, i);
  }

  // The AP of t is that of slot i, with the PSK the file has for it unless the SSID was
  // given, and no usable slot ranks above it.
  ghost predicate TakesBest(s: State, t: State, i: nat)
    requires Fit(s) && i < NSCANS
  {
    var sc := s.table.slots[i];
    && Usable(s, i)
    && (forall k: nat :: k < s.table.n && Usable(s, k) ==> !Better(s.table.slots[k], sc))
    && t.ap.bssid == sc.bssid && t.ap.freq == sc.freq && t.ap.ssid[..t.ap.slen] == sc.ssid[..sc.slen]
    && (if s.ap.fixed then t.psk == s.psk else LoadLines(s.conf, sc.ssid[..sc.slen]) == Some(t.psk))
  }

  lemma PickTakes(s: State, i: nat)
    requires Fit(s) && i < NSCANS && Usable(s, i)
    requires forall k: nat :: k < s.table.n && Usable(s, k) ==> !Better(s.table.slots[k], s.table.slots[i])
    ensures TakesBest(s, SetCurrentAp(s, i).s, i)
  {
    hide ParseBytes, PskText.Find, Field, Better;
    var sc := s.table.slots[i];
    var ssid := sc.ssid[..sc.slen] + s.ap.ssid[sc.slen..];
    assert ssid[..sc.slen] == sc.ssid[..sc.slen];
  }

  lemma SameTaken(s: State, t: State, w: State, i: nat)
    requires Fit(s) && i < NSCANS && TakesBest(s, t, i) && w.ap == t.ap && w.psk == t.psk
    ensures TakesBest(s, w, i)
  {
    hide Usable, Better, LoadLines;
  }

  lemma StartKeepsAp(s: State)
    ensures StartConnection(s).s.ap == s.ap && StartConnection(s).s.psk == s.psk
  {
  }

  // What the user is promised: the strongest AP there is a PSK for, or the strongest with
  // the SSID asked for.
  lemma {:induction false} SearchTakesBest(s: State) returns (i: nat)
    requires Fit(s) && BothIdle(s) && ConnectToSomething(s).ok
    ensures i < s.table.n && TakesBest(s, ConnectToSomething(s).s, i)
    decreases GoodCount(s.table.slots, s.table.n)
  {
    hide SetCurrentAp, StartConnection, GoodCount, FilterOf, NotGood, SameSsid, Used, Better, LoadLines, TakesBest;
    i := Best(s.table.slots, s.table.n, FilterOf(s.ap));
    var t := SetCurrentAp(s, i);
    PickShape(s, i);
    PickIsQuiet(s, i);
    PickWorks(s, i);
    ConnectionPicksNone(t.s);
    if t.ok {
      PickTakes(s, i);
      StartKeepsAp(t.s);
      SameTaken(s, t.s, ConnectToSomething(s).s, i);
    } else {
      TurnCostsGood(s, i);
      NotGoodKeepsAp(t.s, i);
      NotGoodIsQuiet(t.s, i);
      var u := NotGood(t.s, i);
      var j := SearchTakesBest(u);
      LaterIsBest(s, u, ConnectToSomething(u).s, i, j);
      i := j;
    }
  }

  lemma LaterIsBest(s: State, u: State, t: State, i: nat, j: nat)
    requires Fit(s) && Fit(u) && i < s.table.n && j < s.table.n && !Usable(s, i)
    requires FilterOf(u.ap) == FilterOf(s.ap) && u.ap.fixed == s.ap.fixed && u.conf == s.conf
    requires s.ap.fixed ==> u.psk == s.psk
    requires u.table == s.table.(slots := s.table.slots[i := Used(s.table.slots[i], true)])
    requires TakesBest(u, t, j)
    ensures TakesBest(s, t, j)
  {
    hide FilterOf, LoadLines, SameSsid;
    assert !Candidate(u.table.slots[i], FilterOf(u.ap));
    assert j != i;
    assert forall k: nat :: k < s.table.n && k != i ==> (Usable(u, k) <==> Usable(s, k));
  }

  lemma ReassessChooses(s: State) returns (failed: seq<bool>)
    requires Fit(s)
    ensures Chose(s, Reassess(s), failed)
  {
    hide ConnectToSomething, Best;
    if s.mode == Neutral || s.auth != Idle || s.scan != NoScan {
      failed := [];
    } else {
      failed := SearchChooses(s);
    }
  }

  lemma AbortChooses(s: State) returns (failed: seq<bool>)
    requires Fit(s)
    ensures Chose(s, Abort(s), failed)
  {
    hide Reassess, Best;
    failed := [];
    if StartDisconnect(s).ok {
      NonePicked(Abort(s).acts);
    } else {
      failed := ReassessChooses(s);
    }
  }

  // Whether an event leaves the scan table to the selection alone.
  ghost predicate Quiet(e: Event) {
    && !e.CardTrigger? && !e.CardResult? && !e.CardDone? && !e.EapolDone? && !e.UserConnect? && !e.UserForget?
  }

  lemma ScanChoosesNone(s: State, freq: int, sent: bool)
    ensures var r := Scans(s, freq, sent); Picks(r.acts) == [] && r.s.table == s.table
  {
  }

  lemma DisconnectChooses(s: State, sent: bool) returns (failed: seq<bool>)
    requires Fit(s)
    ensures Chose(s, HandleDisconnect(s, sent), failed)
  {
    hide Reassess, Best, StartScan;
    failed := [];
    var w := AfterLoss(s);
    var x := w.(ap := w.ap.(success := false), mode := Rescan);
    ScanChoosesNone(x, x.ap.freq, sent);
    if s.mode != Exit && s.mode != ExitReq && w.mode == Active && !w.ap.success {
      var y := ClearBssid(w);
      failed := ReassessChooses(if y.ap.fixed then y else ClearSsid(y));
    }
  }

  lemma ResetChoosesNone(s: State, r: Result)
    ensures Picks(Then([EapolReset], r).acts) == Picks(r.acts)
  {
    PicksOfTwo([EapolReset], r.acts);
  }

  lemma ConnectionEventChooses(s: State, e: Event) returns (failed: seq<bool>)
    requires Fit(s) && AboutConnection(e)
    ensures Chose(s, Step(s, e), failed)
  {
    hide HandleDisconnect, Best, FilterOf;
    failed := [];
    if e.CardDisconnect? && s.auth != Idle {
      var w := s.(auth := Idle);
      failed := DisconnectChooses(w, e.sent);
      ResetChoosesNone(s, HandleDisconnect(w, e.sent));
    } else {
      OthersPickNone(s, e);
    }
  }

  lemma OthersPickNone(s: State, e: Event)
    requires Fit(s) && AboutConnection(e) && (e.CardDisconnect? ==> s.auth == Idle)
    ensures Picks(Step(s, e).acts) == [] && Step(s, e).s.table == s.table
  {
    hide HandleDisconnect, Reassess;
    NeutralPicksNone(s.(mode := Neutral, auth := External), e.sent);
    NonePicked(Step(s, e).acts);
  }

  lemma NeutralPicksNone(s: State, sent: bool)
    requires Fit(s) && s.mode == Neutral
    ensures HandleDisconnect(s, sent).acts == [] && HandleDisconnect(s, sent).s.table == s.table
  {
    hide Reassess;
  }

  lemma ErrorChooses(s: State, err: int, sq: nat, sent: bool) returns (failed: seq<bool>)
    requires Fit(s)
    ensures Chose(s, OnError(s, err, sq, sent), failed)
  {
    hide Reassess, Abort, StartScan, Best;
    failed := [];
    var w := s.(auth := Idle);
    ScanChoosesNone(w, s.ap.freq, sent);
    if err != -ENETDOWN && sq != s.scanseq && s.auth != Idle {
      if s.auth == Disconnecting {
        failed := ReassessChooses(w);
      } else if !(s.auth == Authenticating && err == -ENOENT) {
        failed := AbortChooses(s);
      }
    }
  }

  lemma TimerChooses(s: State, sent: bool) returns (failed: seq<bool>)
    requires Fit(s)
    ensures Chose(s, OnTimer(s, sent), failed)
  {
    hide Abort, StartScan, ForegroundScan, BackgroundScan, Best;
    failed := [];
    var w, freq := TimerScans(s, sent);
    ScanChoosesNone(w, freq, sent);
    if s.auth != NetDown && s.auth != Connected && s.auth != Idle { failed := AbortChooses(s.(timer := false)); }
  }

  lemma RfRestoredChooses(s: State, sent: bool) returns (failed: seq<bool>)
    requires Fit(s)
    ensures Chose(s, OnRfRestored(s, sent), failed)
  {
    hide Reassess, StartScan, Best;
    failed := [];
    var w := s.(rfkilled := false, auth := Idle);
    var x := w.(ap := w.ap.(success := false), mode := Rescan);
    ScanChoosesNone(x, x.ap.freq, sent);
    if s.auth == NetDown && s.mode != Rescan { failed := ReassessChooses(w); }
  }

  lemma StepChooses(s: State, e: Event) returns (failed: seq<bool>)
    requires Fit(s) && Quiet(e)
    ensures Chose(s, Step(s, e), failed)
  {
    failed := [];
    if AboutConnection(e) {
      failed := ConnectionEventChooses(s, e);
    } else {
      hide OnError, OnTimer, OnRfRestored, Abort, Best, StartScan;
      if e.CardError? {
        failed := ErrorChooses(s, e.err, e.sq, e.sent);
      } else if e.Timer? {
        failed := TimerChooses(s, e.sent);
      } else if e.RfRestored? {
        failed := RfRestoredChooses(s, e.sent);
      } else if e.EapolAborts? {
        failed := AbortChooses(s);
      } else if e.UserScan? {
        ScanChoosesNone(s, 0, e.sent);
      } else {
        NonePicked(Step(s, e).acts);
      }
    }
  }

  lemma {:induction false} SearchKeepsMode(s: State)
    requires Fit(s)
    ensures ConnectToSomething(s).s.mode == s.mode
    decreases GoodCount(s.table.slots, s.table.n)
  {
    hide SetCurrentAp;
    var i := Best(s.table.slots, s.table.n, FilterOf(s.ap));
    if i >= 0 {
      PickIsQuiet(s, i);
      TurnCostsGood(s, i);
      SearchKeepsMode(NotGood(SetCurrentAp(s, i).s, i));
    }
  }

  // A search that finds nothing leaves nothing to find.
  lemma FailureMeansNone(s: State)
    requires Fit(s)
    ensures var t := ConnectToSomething(s);
      !t.ok ==> NoCandidate(t.s.table.slots, t.s.table.n, FilterOf(t.s.ap))
  {
    hide ConnectToSomething, NoCandidate;
    var failed := SearchChooses(s);
  }
}

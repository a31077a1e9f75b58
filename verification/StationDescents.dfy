/** In what order the slots are tried, over every run in which no scan result, no
    configuring command and no successful connection touches the scan table. A fixed SSID
    may be given up half-way; before that and after that ranks never rise. */
module StationDescents {
  import opened Octets
  import opened Scan
  import opened ScanTable
  import opened ApSelect
  import opened PskText
  import opened PskMap
  import opened StationSpec
  import opened StationRuns
  import opened StationPicks
  import opened Wrappers

  // ---- When a fixed SSID is given up ----

  // A notification of another supplicant's doing.
  predicate OutOfOrder(s: State, e: Event) {
    && s.auth != External
    && (|| (e.CardAuthenticate? && s.auth != Authenticating)
        || (e.CardAssociate? && s.auth != Associating)
        || (e.CardConnect? && s.auth != Connecting))
  }

  // The quiet events that go straight to a new search.
  predicate Retries(s: State, e: Event) {
    || (e.EapolAborts? && s.auth == Idle)
    || (e.RfRestored? && s.auth == NetDown)
    || (e.CardError? && e.err != -ENETDOWN && e.sq != s.scanseq && s.auth == Disconnecting)
  }

  // Another supplicant shows up; or the AP is lost while the station is neutral or trying
  // the one SSID the user asked for; or such a try finds nothing it can use.
  ghost predicate GivesUp(s: State, e: Event)
    requires Fit(s)
  {
    && s.ap.fixed
    && (|| OutOfOrder(s, e)
        || (e.CardDisconnect? && s.auth != Idle && (s.mode == Neutral || s.mode == OneShot))
        || (s.mode == OneShot && s.scan == NoScan && Retries(s, e) && !AnyUsable(s)))
  }

  // What becomes of the SSID from s to t, when it is given up exactly if lost holds.
  ghost predicate KeepsSsid(s: State, t: State, lost: bool) {
    && (!s.ap.fixed ==> !t.ap.fixed)
    && (s.ap.fixed && lost ==> !t.ap.fixed)
    && (s.ap.fixed && !lost ==> FilterOf(t.ap) == FilterOf(s.ap))
  }

  lemma ScanKeepsSsid(s: State, freq: int, sent: bool)
    ensures Scans(s, freq, sent).s.ap == s.ap
  {
  }

  lemma StartKeepsSsid(s: State)
    ensures StartConnection(s).s.ap == s.ap && StartDisconnect(s).s.ap == s.ap
  {
  }

  lemma ReassessKeepsSsid(s: State)
    requires Fit(s)
    ensures KeepsSsid(s, Reassess(s).s, s.mode == OneShot && BothIdle(s) && !AnyUsable(s))
  {
    hide ConnectToSomething, AnyUsable;
    if s.mode != Neutral && BothIdle(s) {
      SearchStarts(s);
      SearchKeepsMode(s);
      var failed := SearchChooses(s);
    }
  }

  lemma AbortKeepsSsid(s: State)
    requires Fit(s)
    ensures KeepsSsid(s, Abort(s).s, s.mode == OneShot && BothIdle(s) && !AnyUsable(s))
  {
    hide Reassess, AnyUsable;
    StartKeepsSsid(s);
    ReassessKeepsSsid(s);
  }

  lemma DisconnectKeepsSsid(s: State, sent: bool)
    requires Fit(s)
    ensures KeepsSsid(s, HandleDisconnect(s, sent).s, s.mode == Neutral || s.mode == OneShot)
  {
    hide Reassess, StartScan, AnyUsable;
    var w := AfterLoss(s);
    var x := w.(ap := w.ap.(success := false), mode := Rescan);
    ScanKeepsSsid(x, x.ap.freq, sent);
    var y := ClearBssid(w);
    ReassessKeepsSsid(if y.ap.fixed then y else ClearSsid(y));
  }

  lemma LossKeepsSsid(s: State, sent: bool)
    requires Fit(s)
    ensures KeepsSsid(s, OnDisconnect(s, sent).s, GivesUp(s, CardDisconnect(sent)))
  {
    hide HandleDisconnect, AnyUsable;
    DisconnectKeepsSsid(s.(auth := Idle), sent);
  }

  lemma SnapKeepsSsid(s: State, sent: bool)
    requires Fit(s)
    ensures KeepsSsid(s, SnapDisabled(s, sent).s, true)
  {
    hide HandleDisconnect;
    DisconnectKeepsSsid(s.(mode := Neutral, auth := External), sent);
  }

  lemma AssociateKeepsSsid(s: State, aborted: bool, sent: bool)
    requires Fit(s)
    ensures KeepsSsid(s, OnAssociate(s, aborted, sent).s, s.auth != External && s.auth != Associating)
  {
    hide SnapDisabled, Reassess;
    SnapKeepsSsid(s, sent);
  }

  lemma ConnectionEventKeepsSsid(s: State, e: Event)
    requires Fit(s) && AboutConnection(e)
    ensures KeepsSsid(s, Step(s, e).s, GivesUp(s, e))
  {
    hide SnapDisabled, OnDisconnect, OnAssociate, AnyUsable;
    if e.CardDisconnect? {
      LossKeepsSsid(s, e.sent);
    } else if e.CardAssociate? {
      AssociateKeepsSsid(s, e.aborted, e.sent);
    } else {
      SnapKeepsSsid(s, e.sent);
    }
  }

  lemma ErrorKeepsSsid(s: State, err: int, sq: nat, sent: bool)
    requires Fit(s)
    ensures KeepsSsid(s, OnError(s, err, sq, sent).s, GivesUp(s, CardError(err, sq, sent)))
  {
    hide Abort, Reassess, StartScan, AnyUsable;
    var w := s.(auth := Idle);
    SameSlots(s, w);
    ReassessKeepsSsid(w);
    AbortKeepsSsid(s);
    ScanKeepsSsid(w, s.ap.freq, sent);
  }

  // Which slots can be used does not depend on the machines.
  lemma SameSlots(s: State, t: State)
    requires Fit(s) && Fit(t) && t.table == s.table && t.ap == s.ap && t.conf == s.conf
    ensures AnyUsable(t) <==> AnyUsable(s)
  {
    assert forall k: nat :: k < s.table.n ==> (Usable(t, k) <==> Usable(s, k));
  }

  lemma TimerKeepsSsid(s: State, sent: bool)
    requires Fit(s)
    ensures KeepsSsid(s, OnTimer(s, sent).s, GivesUp(s, Timer(sent)))
  {
    hide Abort, StartScan, ForegroundScan, BackgroundScan, AnyUsable;
    var u := s.(timer := false);
    SameSlots(s, u);
    AbortKeepsSsid(u);
    var w, freq := TimerScans(s, sent);
    ScanKeepsSsid(w, freq, sent);
  }

  lemma RfRestoredKeepsSsid(s: State, sent: bool)
    requires Fit(s)
    ensures KeepsSsid(s, OnRfRestored(s, sent).s, GivesUp(s, RfRestored(sent)))
  {
    hide Reassess, StartScan, AnyUsable;
    var w := s.(rfkilled := false, auth := Idle);
    SameSlots(s, w);
    ReassessKeepsSsid(w);
    var x := w.(ap := w.ap.(success := false), mode := Rescan);
    ScanKeepsSsid(x, x.ap.freq, sent);
  }

  // A quiet event never fixes an SSID, and gives up a fixed one exactly when GivesUp says.
  lemma QuietKeepsSsid(s: State, e: Event)
    requires Fit(s) && Quiet(e)
    ensures KeepsSsid(s, Step(s, e).s, GivesUp(s, e))
  {
    if AboutConnection(e) {
      ConnectionEventKeepsSsid(s, e);
    } else {
      hide OnError, OnTimer, OnRfRestored, Abort, StartScan, AnyUsable, StartDisconnect;
      if e.CardError? {
        ErrorKeepsSsid(s, e.err, e.sq, e.sent);
      } else if e.Timer? {
        TimerKeepsSsid(s, e.sent);
      } else if e.RfRestored? {
        RfRestoredKeepsSsid(s, e.sent);
      } else if e.EapolAborts? {
        AbortKeepsSsid(s);
      } else if e.UserScan? {
        ScanKeepsSsid(s, 0, e.sent);
      } else {
        StartKeepsSsid(s);
        StartKeepsSsid(s.(mode := Neutral));
      }
    }
  }

  // ---- Runs ----

  ghost predicate AllQuiet(es: seq<Event>) { forall k :: 0 <= k < |es| ==> Quiet(es[k]) }

  // The fixed SSID of s is given up in the run.
  ghost predicate GivenUp(s: State, es: seq<Event>)
    requires Fit(s)
  {
    exists k: nat :: k < |es| && GivesUp(Run(s, es[..k]).s, es[k])
  }

  // How many selections are made up to the event that gives it up, that event included.
  ghost function FirstPicks(s: State, es: seq<Event>): (m: nat)
    requires Fit(s)
  {
    if es == [] then 0
    else if GivenUp(s, es[..|es| - 1]) then FirstPicks(s, es[..|es| - 1])
    else |Picks(Run(s, es).acts)|
  }

  lemma GivenUpLater(s: State, es: seq<Event>)
    requires Fit(s) && es != []
    ensures var n := |es| - 1;
      GivenUp(s, es) <==> GivenUp(s, es[..n]) || GivesUp(Run(s, es[..n]).s, es[n])
  {
    hide GivesUp, Run;
    var n := |es| - 1;
    assert forall k: nat :: k <= n ==> es[..n][..k] == es[..k];
    if GivenUp(s, es) {
      var k: nat :| k < |es| && GivesUp(Run(s, es[..k]).s, es[k]);
      if k < n { assert es[..n][k] == es[k]; }
    }
    if GivenUp(s, es[..n]) {
      var k: nat :| k < n && GivesUp(Run(s, es[..n][..k]).s, es[..n][k]);
      assert es[..n][k] == es[k];
    }
  }

  lemma {:induction false} ChoicesInTwo(s: seq<Scan>, n: nat, f: Filter, a: seq<bool>, b: seq<bool>)
    requires n <= |s|
    ensures Choices(s, n, f, a + b) == Choices(s, n, f, a) + Choices(After(s, n, f, a), n, f, b)
    ensures After(s, n, f, a + b) == After(After(s, n, f, a), n, f, b)
    decreases |a|
  {
    hide Candidate, Better, Used;
    var i := Best(s, n, f);
    if a == [] {
      assert a + b == b;
    } else if i != -1 {
      ChoicesInTwo(s[i := Used(s[i], a[0])], n, f, a[1..], b);
      assert (a + b)[1..] == a[1..] + b;
    }
  }

  // The filter once there is no fixed SSID.
  const OPEN := Filter(false, 0, ZERO_SSID)

  ghost predicate TwoParts(s: State, r: Result, a: seq<bool>, b: seq<bool>)
    requires Fit(s)
  {
    var f := FilterOf(s.ap);
    var mid := After(s.table.slots, s.table.n, f, a);
    && Picks(r.acts) == Choices(s.table.slots, s.table.n, f, a) + Choices(mid, s.table.n, OPEN, b)
    && r.s.table == s.table.(slots := After(mid, s.table.n, OPEN, b))
  }

  // Every quiet run selects in two parts: first the best slots under the filter it starts
  // with, and, once a fixed SSID was given up, the best under no filter. The second part
  // is there only if one was given up, and the run ends without a fixed SSID exactly then
  // or when it started without.
  lemma {:induction false} QuietRunInTwo(s: State, es: seq<Event>) returns (a: seq<bool>, b: seq<bool>)
    requires Fit(s) && AllQuiet(es)
    ensures TwoParts(s, Run(s, es), a, b)
    ensures |Choices(s.table.slots, s.table.n, FilterOf(s.ap), a)| == FirstPicks(s, es)
    ensures GivenUp(s, es) ==> s.ap.fixed
    ensures !GivenUp(s, es) ==> b == [] && FilterOf(Run(s, es).s.ap) == FilterOf(s.ap)
    ensures !Run(s, es).s.ap.fixed <==> !s.ap.fixed || GivenUp(s, es)
  {
    hide Step, Best, GivesUp, Choices, After, Picks;
    if es == [] {
      a, b := [], [];
      NothingChosen(s.table.slots, s.table.n, FilterOf(s.ap));
      NothingChosen(s.table.slots, s.table.n, OPEN);
      assert Picks([]) == [] by { NonePicked([]); }
    } else {
      var n := |es| - 1;
      var p := Run(s, es[..n]);
      a, b := QuietRunInTwo(s, es[..n]);
      QuietKeepsSsid(p.s, es[n]);
      GivenUpLater(s, es);
      var last := StepChooses(p.s, es[n]);
      PicksOfTwo(p.acts, Step(p.s, es[n]).acts);
      if GivenUp(s, es[..n]) {
        SecondPart(s, p, Step(p.s, es[n]), a, b, last);
        b := b + last;
      } else {
        NotFixed(p.s, es[n]);
        FirstPart(s, p, Step(p.s, es[n]), a, last);
        a := a + last;
      }
    }
  }

  lemma NothingChosen(s: seq<Scan>, n: nat, f: Filter)
    requires n <= |s|
    ensures Choices(s, n, f, []) == [] && After(s, n, f, []) == s
  {
  }

  lemma NotFixed(s: State, e: Event)
    requires Fit(s)
    ensures GivesUp(s, e) ==> s.ap.fixed
  {
  }

  lemma FirstPart(s: State, p: Result, r: Result, a: seq<bool>, last: seq<bool>)
    requires Fit(s) && Fit(p.s) && TwoParts(s, p, a, []) && Chose(p.s, r, last) && FilterOf(p.s.ap) == FilterOf(s.ap)
    ensures TwoParts(s, Result(r.s, p.acts + r.acts), a + last, [])
    ensures Choices(s.table.slots, s.table.n, FilterOf(s.ap), a + last) == Picks(p.acts + r.acts)
  {
    hide Choices, After, FilterOf, Picks;
    var slots, n, f := s.table.slots, s.table.n, FilterOf(s.ap);
    var mid := After(slots, n, f, a);
    PicksOfTwo(p.acts, r.acts);
    NothingChosen(mid, n, OPEN);
    NothingChosen(After(slots, n, f, a + last), n, OPEN);
    ChoicesInTwo(slots, n, f, a, last);
  }

  lemma SecondPart(s: State, p: Result, r: Result, a: seq<bool>, b: seq<bool>, last: seq<bool>)
    requires Fit(s) && Fit(p.s) && TwoParts(s, p, a, b) && Chose(p.s, r, last) && !p.s.ap.fixed
    ensures TwoParts(s, Result(r.s, p.acts + r.acts), a, b + last)
  {
    hide Choices, After, Picks;
    var mid := After(s.table.slots, s.table.n, FilterOf(s.ap), a);
    PicksOfTwo(p.acts, r.acts);
    ChoicesInTwo(mid, s.table.n, OPEN, b, last);
  }

  lemma {:induction false} RanksStay(s: seq<Scan>, n: nat, f: Filter, failed: seq<bool>, k: nat)
    requires n <= |s| && k < |s|
    ensures var u := After(s, n, f, failed); u[k].signal == s[k].signal && u[k].freq == s[k].freq
    decreases |failed|
  {
    hide Candidate, Better;
    var i := Best(s, n, f);
    if failed != [] && i != -1 {
      RanksStay(s[i := Used(s[i], failed[0])], n, f, failed[1..], k);
    }
  }

  // In a quiet run no slot is tried twice, and a slot ranks above one tried before it only
  // if a fixed SSID was given up in between.
  lemma SelectionsDescend(s: State, es: seq<Event>, i: nat, j: nat)
    requires Fit(s) && AllQuiet(es) && i < j < |Picks(Run(s, es).acts)|
    ensures var ps := Picks(Run(s, es).acts);
      && 0 <= ps[i] < NSCANS && 0 <= ps[j] < NSCANS && ps[i] != ps[j]
      && (Better(s.table.slots[ps[j]], s.table.slots[ps[i]]) ==> GivenUp(s, es) && i < FirstPicks(s, es) <= j)
  {
    hide Run, Better, Best, Choices, After, Picks, GivenUp, FirstPicks;
    var a, b := QuietRunInTwo(s, es);
    NoSlotTwice(s, es);
    var ps := Picks(Run(s, es).acts);
    var slots, n, f := s.table.slots, s.table.n, FilterOf(s.ap);
    var mid := After(slots, n, f, a);
    var m := FirstPicks(s, es);
    if j < m {
      ChoicesDescend(slots, n, f, a, i, j);
    } else if i >= m {
      ChoicesDescend(mid, n, OPEN, b, i - m, j - m);
      RanksStay(slots, n, f, a, ps[i]);
      RanksStay(slots, n, f, a, ps[j]);
      SameRank(slots[ps[j]], slots[ps[i]], mid[ps[j]], mid[ps[i]]);
    } else if !GivenUp(s, es) {
      NothingChosen(mid, n, OPEN);
    }
  }

  lemma SameRank(a: Scan, b: Scan, c: Scan, d: Scan)
    requires a.signal == c.signal && a.freq == c.freq && b.signal == d.signal && b.freq == d.freq
    ensures Better(a, b) <==> Better(c, d)
  {
  }

  // Without a fixed SSID at the start none is ever given up, and ranks never rise.
  lemma OpenSelectionsDescend(s: State, es: seq<Event>, i: nat, j: nat)
    requires Fit(s) && AllQuiet(es) && !s.ap.fixed && i < j < |Picks(Run(s, es).acts)|
    ensures var ps := Picks(Run(s, es).acts);
      && 0 <= ps[i] < NSCANS && 0 <= ps[j] < NSCANS && ps[i] != ps[j]
      && !Better(s.table.slots[ps[j]], s.table.slots[ps[i]])
  {
    hide Run, Better, Picks, GivenUp, FirstPicks;
    SelectionsDescend(s, es, i, j);
    var a, b := QuietRunInTwo(s, es);
  }

  // ---- No slot twice ----

  lemma {:induction false} MarksStay(s: seq<Scan>, n: nat, f: Filter, failed: seq<bool>, k: nat)
    requires n <= |s| && k < |s| && s[k].flags.tried
    ensures After(s, n, f, failed)[k].flags.tried
    decreases |failed|
  {
    hide Candidate, Better;
    var i := Best(s, n, f);
    if failed != [] && i != -1 {
      MarksStay(s[i := Used(s[i], failed[0])], n, f, failed[1..], k);
    }
  }

  lemma {:induction false} ChoicesAreMarked(s: seq<Scan>, n: nat, f: Filter, failed: seq<bool>, a: nat)
    requires n <= |s| && a < |Choices(s, n, f, failed)|
    ensures After(s, n, f, failed)[Choices(s, n, f, failed)[a]].flags.tried
    decreases |failed|
  {
    hide Candidate, Better;
    var i := Best(s, n, f);
    var s' := s[i := Used(s[i], failed[0])];
    if a == 0 {
      MarksStay(s', n, f, failed[1..], i);
    } else {
      ChoicesAreMarked(s', n, f, failed[1..], a - 1);
    }
  }

  ghost predicate DistinctAndTried(ps: seq<int>, s: seq<Scan>) {
    && (forall a :: 0 <= a < |ps| ==> 0 <= ps[a] < |s| && s[ps[a]].flags.tried)
    && (forall a, b :: 0 <= a < b < |ps| ==> ps[a] != ps[b])
  }

  // Even when a fixed SSID is given up half-way, a quiet run tries no slot twice.
  lemma {:induction false} NoSlotTwice(s: State, es: seq<Event>)
    requires Fit(s) && AllQuiet(es)
    ensures DistinctAndTried(Picks(Run(s, es).acts), Run(s, es).s.table.slots)
  {
    hide Step, Best, FilterOf, After, Choices;
    if es != [] {
      var n := |es| - 1;
      var p := Run(s, es[..n]);
      NoSlotTwice(s, es[..n]);
      var failed := StepChooses(p.s, es[n]);
      PicksOfTwo(p.acts, Step(p.s, es[n]).acts);
      StepAddsDistinct(Picks(p.acts), p.s.table.slots, p.s.table.n, FilterOf(p.s.ap), failed);
    }
  }

  lemma StepAddsDistinct(ps: seq<int>, s: seq<Scan>, n: nat, f: Filter, failed: seq<bool>)
    requires n <= |s| && DistinctAndTried(ps, s)
    ensures DistinctAndTried(ps + Choices(s, n, f, failed), After(s, n, f, failed))
  {
    hide Choices, After, Best, Better;
    var cs, u := Choices(s, n, f, failed), After(s, n, f, failed);
    ChoicesAreCandidates(s, n, f, failed);
    forall a | 0 <= a < |ps| + |cs|
      ensures u[(ps + cs)[a]].flags.tried
    {
      if a < |ps| { MarksStay(s, n, f, failed, ps[a]); } else { ChoicesAreMarked(s, n, f, failed, a - |ps|); }
    }
    forall a, b | 0 <= a < b < |ps| + |cs|
      ensures (ps + cs)[a] != (ps + cs)[b]
    {
      if a >= |ps| {
        ChoicesDescend(s, n, f, failed, a - |ps|, b - |ps|);
      } else if b >= |ps| {
        assert Candidate(s[cs[b - |ps|]], f);
      }
    }
  }
}

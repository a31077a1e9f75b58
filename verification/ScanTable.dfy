/** The scan table (wsupp_slots.c) and what a scan does to it (wsupp_netlink.c:180-246,
    489-496): slots reused in place, stale marks, a bound that moves both ways. */
module ScanTable {
  import opened Octets
  import opened Scan
  import opened StaIes

  const NSCANS := 30

  // scans and nscans
  datatype Table = Table(slots: seq<Scan>, n: nat)

  predicate Live(s: Scan) { s.freq != 0 }

  // The table is well-formed: thirty slots, the unused ones zero, and no BSSID on two
  // live slots.
  ghost predicate Bounded(t: Table) {
    && |t.slots| == NSCANS && t.n <= NSCANS
    && forall k :: t.n <= k < NSCANS ==> t.slots[k] == EMPTY
  }

  ghost predicate Distinct(t: Table) {
    forall i, j :: 0 <= i < j < |t.slots| && Live(t.slots[i]) && Live(t.slots[j]) ==>
      t.slots[i].bssid != t.slots[j].bssid
  }

  // The first index below n that satisfies a test, or n.
  function First(s: seq<Scan>, n: nat, test: Scan -> bool): (i: nat)
    requires n <= |s|
    ensures i <= n && (i < n ==> test(s[i])) && forall k :: 0 <= k < i ==> !test(s[k])
    decreases n
  {
    if n == 0 then 0
    else
      var i := First(s, n - 1, test);
      if i < n - 1 || test(s[n - 1]) then i else n
  }

  function Has(bssid: Mac): Scan -> bool { (s: Scan) => Live(s) && s.bssid == bssid }
  function IsEmpty(): Scan -> bool { (s: Scan) => s == EMPTY }

  // Weak, unseen in this scan so far, and without a PSK (wsupp_slots.c:78-84).
  function IsUseless(): Scan -> bool { (s: Scan) => s.signal <= -8000 && s.flags.stale && !s.flags.pass }

  datatype Grabbed = Grabbed(table: Table, slot: int)  // slot -1 for NULL

  // grab_scan_slot with find_scan_slot and grab_slot (wsupp_slots.c:11-27, 53-91)
  function Grab(t: Table, bssid: Mac): (g: Grabbed)
    requires |t.slots| == NSCANS && t.n <= NSCANS
    ensures -1 <= g.slot < NSCANS && |g.table.slots| == NSCANS && g.table.n <= NSCANS
  {
    var found := First(t.slots, t.n, Has(bssid));
    var empty := First(t.slots, t.n, IsEmpty());
    var useless := First(t.slots, t.n, IsUseless());
    if found < t.n then Grabbed(t, found)
    else if empty < t.n then Grabbed(t, empty)
    else if t.n < NSCANS then Grabbed(t.(n := t.n + 1), t.n)
    else if useless < t.n then Grabbed(t.(slots := t.slots[useless := EMPTY]), useless)
    else Grabbed(t, -1)
  }

  // The new count once the zero slots at the end are given up.
  function Shrunk(s: seq<Scan>, n: nat): (m: nat)
    requires n <= |s|
    ensures m <= n && (m > 0 ==> s[m - 1] != EMPTY) && forall k :: m <= k < n ==> s[k] == EMPTY
  {
    if n > 0 && s[n - 1] == EMPTY then Shrunk(s, n - 1) else n
  }

  // free_slot (wsupp_slots.c:29-41)
  function Free(t: Table, i: nat): Table
    requires i < |t.slots| && t.n <= |t.slots|
  {
    var s := t.slots[i := EMPTY];
    Table(s, Shrunk(s, t.n))
  }

  // A scan result with a BSS attribute: its BSSID, frequency, signal and elements.
  datatype Report = Report(bssid: Mac, freq: int, signal: int, ies: seq<Octet>)

  // parse_scan_result (wsupp_netlink.c:224-246) on the slot it grabbed.
  ghost function Reported(sc: Scan, r: Report): Scan {
    ApplyIes(sc.(bssid := r.bssid, freq := Short(r.freq), signal := Short(r.signal), types := NO_TYPES,
                 flags := sc.flags.(stale := false)), r.ies)
  }

  ghost function Take(t: Table, r: Report): (u: Table)
    requires |t.slots| == NSCANS && t.n <= NSCANS
    ensures |u.slots| == NSCANS && u.n <= NSCANS
  {
    var g := Grab(t, r.bssid);
    if g.slot < 0 then g.table
    else g.table.(slots := g.table.slots[g.slot := Reported(g.table.slots[g.slot], r)])
  }

  // mark_stale_scan_slots (wsupp_netlink.c:180-200)
  predicate Scanned(s: Scan, freqs: seq<int>) { Live(s) && s.freq in freqs }

  function Marked(s: Scan, freqs: seq<int>): Scan {
    if Scanned(s, freqs) then s.(flags := s.flags.(stale := true)) else s
  }

  function Mark(t: Table, freqs: seq<int>): Table
    requires t.n <= |t.slots|
  {
    t.(slots := seq(|t.slots|, k requires 0 <= k < |t.slots| =>
                    if k < t.n then Marked(t.slots[k], freqs) else t.slots[k]))
  }

  // drop_stale_scan_slots (wsupp_netlink.c:489-496) from slot i on; the bound is read
  // again at every turn, after Free has moved it.
  function DropFrom(t: Table, i: nat): Table
    requires t.n <= |t.slots|
    decreases t.n - i
  {
    if i >= t.n then t
    else if t.slots[i].flags.stale then DropFrom(Free(t, i), i + 1)
    else DropFrom(t, i + 1)
  }

  function Drop(t: Table): Table
    requires t.n <= |t.slots|
  {
    DropFrom(t, 0)
  }

  // ---- What the operations keep ----

  lemma ElementsKeepPlace(sc: Scan, s: seq<Octet>)
    ensures ApplyIes(sc, s).bssid == sc.bssid && ApplyIes(sc, s).freq == sc.freq && ApplyIes(sc, s).flags == sc.flags
    ensures ApplyIes(sc, s).signal == sc.signal
    decreases |s|
  {
    hide RsnTypes, VendorTypes, Trimmed;
    if |s| >= 2 && 2 + s[1] as int <= |s| {
      ElementsKeepPlace(ApplyIe(sc, s[0], s[2..2 + s[1] as int]), s[2 + s[1] as int..]);
    }
  }

  // What taking a report does: one slot changes, to one with the BSSID reported and no
  // stale mark, and no other live slot has that BSSID.
  lemma TakeChangesOne(t: Table, r: Report)
    requires Bounded(t) && Distinct(t)
    ensures Bounded(Take(t, r)) && Distinct(Take(t, r))
    ensures var g := Grab(t, r.bssid).slot;
      && (g < 0 ==> Take(t, r).slots == t.slots)
      && (g >= 0 ==> Take(t, r).slots[g].bssid == r.bssid && !Take(t, r).slots[g].flags.stale)
      && (forall k :: 0 <= k < NSCANS && k != g ==> Take(t, r).slots[k] == t.slots[k])
  {
    hide ApplyIes;
    var g := Grab(t, r.bssid);
    if g.slot >= 0 {
      var sc := g.table.slots[g.slot];
      ElementsKeepPlace(sc.(bssid := r.bssid, freq := Short(r.freq), signal := Short(r.signal), types := NO_TYPES,
                            flags := sc.flags.(stale := false)), r.ies);
      OthersLack(t, r.bssid);
    }
  }

  lemma OthersLack(t: Table, bssid: Mac)
    requires Bounded(t) && Distinct(t)
    ensures forall k :: 0 <= k < NSCANS && k != Grab(t, bssid).slot && Live(t.slots[k]) ==> t.slots[k].bssid != bssid
  {
    forall k | 0 <= k < NSCANS && k != Grab(t, bssid).slot && Live(t.slots[k])
      ensures t.slots[k].bssid != bssid
    {
      if k < t.n {
        assert Has(bssid)(t.slots[k]) <==> t.slots[k].bssid == bssid;
      }
    }
  }

  lemma FreeKeeps(t: Table, i: nat)
    requires Bounded(t) && Distinct(t) && i < NSCANS
    ensures Bounded(Free(t, i)) && Distinct(Free(t, i))
  {
  }

  // The sweep empties stale slots and leaves every other slot where and as it was.
  lemma {:induction false} DropSweeps(t: Table, i: nat)
    requires Bounded(t) && Distinct(t)
    requires forall k :: 0 <= k < i && k < NSCANS ==> !t.slots[k].flags.stale
    ensures Bounded(DropFrom(t, i)) && Distinct(DropFrom(t, i))
    ensures forall k :: 0 <= k < NSCANS ==>
              DropFrom(t, i).slots[k] == if t.slots[k].flags.stale then EMPTY else t.slots[k]
    decreases t.n - i
  {
    if i < t.n {
      if t.slots[i].flags.stale {
        FreeKeeps(t, i);
        DropSweeps(Free(t, i), i + 1);
      } else {
        DropSweeps(t, i + 1);
      }
    }
  }

  // ---- A whole scan cycle ----

  ghost function TakeAll(t: Table, rs: seq<Report>): (u: Table)
    requires |t.slots| == NSCANS && t.n <= NSCANS
    ensures |u.slots| == NSCANS && u.n <= NSCANS
  {
    if rs == [] then t else Take(TakeAll(t, rs[..|rs| - 1]), rs[|rs| - 1])
  }

  ghost function Cycle(t: Table, freqs: seq<int>, rs: seq<Report>): Table
    requires Bounded(t)
  {
    Drop(TakeAll(Mark(t, freqs), rs))
  }

  ghost predicate InDump(s: Scan, rs: seq<Report>) { exists k :: 0 <= k < |rs| && rs[k].bssid == s.bssid }

  // Slot k came through: it was reported, or it is as before and its frequency was not
  // scanned.
  ghost predicate Kept(t: Table, u: Table, freqs: seq<int>, rs: seq<Report>, k: nat)
    requires k < |t.slots| && k < |u.slots|
  {
    InDump(u.slots[k], rs) || (u.slots[k] == t.slots[k] && u.slots[k].freq !in freqs)
  }

  lemma {:induction false} DumpKeeps(t: Table, freqs: seq<int>, rs: seq<Report>)
    requires Bounded(t) && Distinct(t) && forall k :: 0 <= k < NSCANS ==> !t.slots[k].flags.stale
    ensures var u := TakeAll(Mark(t, freqs), rs);
      && Bounded(u) && Distinct(u)
      && forall k :: 0 <= k < NSCANS && Live(u.slots[k]) && !u.slots[k].flags.stale ==> Kept(t, u, freqs, rs, k)
  {
    hide Grab;
    if rs != [] {
      var n := |rs| - 1;
      DumpKeeps(t, freqs, rs[..n]);
      var u := TakeAll(Mark(t, freqs), rs[..n]);
      var w := TakeAll(Mark(t, freqs), rs);
      TakeChangesOne(u, rs[n]);
      forall k | 0 <= k < NSCANS && Live(w.slots[k]) && !w.slots[k].flags.stale
        ensures Kept(t, w, freqs, rs, k)
      {
        if k == Grab(u, rs[n].bssid).slot {
          assert rs[n].bssid == w.slots[k].bssid;
        } else if InDump(u.slots[k], rs[..n]) {
          var j :| 0 <= j < n && rs[..n][j].bssid == u.slots[k].bssid;
          assert rs[j].bssid == w.slots[k].bssid;
        }
      }
    }
  }

  // A cycle that starts without stale marks ends without any, although the bound moves
  // under the sweep; BSSIDs stay distinct; and every live slot was reported in this dump
  // or is untouched on a frequency that was not scanned.
  lemma CycleIsSound(t: Table, freqs: seq<int>, rs: seq<Report>)
    requires Bounded(t) && Distinct(t) && forall k :: 0 <= k < NSCANS ==> !t.slots[k].flags.stale
    ensures var u := Cycle(t, freqs, rs);
      && Bounded(u) && Distinct(u)
      && (forall k :: 0 <= k < NSCANS ==> !u.slots[k].flags.stale)
      && (forall k :: 0 <= k < NSCANS && Live(u.slots[k]) ==> Kept(t, u, freqs, rs, k))
  {
    hide Take, InDump;
    DumpKeeps(t, freqs, rs);
    DropSweeps(TakeAll(Mark(t, freqs), rs), 0);
  }
}

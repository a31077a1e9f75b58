/** The scan table as the array and count the program keeps (wsupp_slots.c), and the
    loops of wsupp_netlink.c and wsupp_apsel.c over it. */
module ScanSlots {
  import opened Octets
  import opened Scan
  import opened StaIes
  import opened ScanTable

  lemma {:induction false} FirstIs(s: seq<Scan>, n: nat, test: Scan -> bool, i: nat)
    requires n <= |s| && i <= n && (i < n ==> test(s[i])) && forall k :: 0 <= k < i ==> !test(s[k])
    ensures First(s, n, test) == i
  {
  }

  lemma {:induction false} ShrunkIs(s: seq<Scan>, n: nat, m: nat)
    requires m <= n <= |s| && (m > 0 ==> s[m - 1] != EMPTY) && forall k :: m <= k < n ==> s[k] == EMPTY
    ensures Shrunk(s, n) == m
  {
  }

  class Slots {
    const scans: array<Scan>
    var nscans: nat

    ghost predicate Valid()
      reads this
    {
      scans.Length == NSCANS && nscans <= NSCANS
    }

    function Now(): Table
      reads this, scans
    {
      Table(scans[..], nscans)
    }

    constructor ()
      ensures Valid() && fresh(scans) && Bounded(Now()) && Distinct(Now()) && nscans == 0
    {
      scans := new Scan[NSCANS](_ => EMPTY);
      nscans := 0;
    }

    // find_scan_slot (wsupp_slots.c:53-64)
    method FindScanSlot(bssid: Mac) returns (r: int)
      requires Valid()
      ensures var i := First(scans[..], nscans, Has(bssid)); r == if i < nscans then i else -1
    {
      var i := 0;
      while i < nscans
        invariant 0 <= i <= nscans
        invariant forall k :: 0 <= k < i ==> !Has(bssid)(scans[k])
      {
        if scans[i].freq != 0 && scans[i].bssid == bssid {
          FirstIs(scans[..], nscans, Has(bssid), i);
          return i;
        }
        i := i + 1;
      }
      FirstIs(scans[..], nscans, Has(bssid), nscans);
      r := -1;
    }

    // grab_slot (wsupp_slots.c:11-27)
    method GrabSlot() returns (r: int)
      requires Valid()
      modifies this
      ensures var i := First(scans[..], old(nscans), IsEmpty());
        (i < old(nscans) ==> r == i && nscans == old(nscans))
        && (i == old(nscans) && i < NSCANS ==> r == i && nscans == i + 1)
        && (i == old(nscans) && i == NSCANS ==> r == -1 && nscans == i)
    {
      var p := 0;
      while p < nscans
        invariant 0 <= p <= nscans == old(nscans)
        invariant forall k :: 0 <= k < p ==> !IsEmpty()(scans[k])
      {
        if scans[p] == EMPTY { break; }
        p := p + 1;
      }
      FirstIs(scans[..], nscans, IsEmpty(), p);
      if p < nscans { return p; }
      if p >= NSCANS { return -1; }
      nscans := nscans + 1;
      r := p;
    }

    // The last resort of grab_scan_slot (wsupp_slots.c:78-88).
    method SacrificeSlot() returns (r: int)
      requires Valid()
      modifies scans
      ensures var i := First(old(scans[..]), nscans, IsUseless());
        r == (if i < nscans then i else -1) && scans[..] == if r >= 0 then old(scans[..])[r := EMPTY] else old(scans[..])
    {
      hide EMPTY;
      var i := 0;
      while i < nscans
        invariant 0 <= i <= nscans && scans[..] == old(scans[..])
        invariant forall k :: 0 <= k < i ==> !IsUseless()(scans[k])
      {
        var sc := scans[i];
        if !(sc.signal > -8000) && sc.flags.stale && !sc.flags.pass {
          FirstIs(scans[..], nscans, IsUseless(), i);
          scans[i] := EMPTY;
          return i;
        }
        i := i + 1;
      }
      FirstIs(scans[..], nscans, IsUseless(), nscans);
      r := -1;
    }

    // grab_scan_slot (wsupp_slots.c:66-91)
    method GrabScanSlot(bssid: Mac) returns (r: int)
      requires Valid()
      modifies this, scans
      ensures Valid() && Grabbed(Now(), r) == Grab(old(Now()), bssid)
    {
      hide EMPTY, Has, IsEmpty, IsUseless;
      r := FindScanSlot(bssid);
      if r >= 0 { return; }
      r := GrabSlot();
      if r >= 0 { return; }
      r := SacrificeSlot();
    }

    // free_slot (wsupp_slots.c:29-41)
    method FreeScanSlot(i: nat)
      requires Valid() && i < NSCANS
      modifies this, scans
      ensures Valid() && Now() == Free(old(Now()), i)
    {
      scans[i] := EMPTY;
      var m := nscans;
      while nscans > 0
        invariant 0 <= nscans <= m == old(nscans)
        invariant forall k :: nscans <= k < m ==> scans[k] == EMPTY
        invariant scans[..] == old(scans[..])[i := EMPTY]
      {
        if scans[nscans - 1] != EMPTY { break; }
        nscans := nscans - 1;
      }
      ShrunkIs(scans[..], m, nscans);
    }

    // mark_stale_scan_slots (wsupp_netlink.c:180-200); freqs are the well-sized
    // attributes of the frequency list.
    method MarkStale(freqs: seq<int>)
      requires Valid()
      modifies scans
      ensures Now() == Mark(old(Now()), freqs)
    {
      var i := 0;
      while i < nscans
        invariant 0 <= i <= nscans
        invariant forall k :: 0 <= k < i ==> scans[k] == Marked(old(scans[k]), freqs)
        invariant forall k :: i <= k < NSCANS ==> scans[k] == old(scans[k])
      {
        if scans[i].freq != 0 {
          var j := 0;
          while j < |freqs| && freqs[j] != scans[i].freq
            invariant 0 <= j <= |freqs| && scans[i].freq !in freqs[..j]
          {
            j := j + 1;
          }
          if j < |freqs| { scans[i] := scans[i].(flags := scans[i].flags.(stale := true)); }
        }
        i := i + 1;
      }
    }

    // drop_stale_scan_slots (wsupp_netlink.c:489-496)
    method DropStale()
      requires Valid()
      modifies this, scans
      ensures Valid() && Now() == Drop(old(Now()))
    {
      hide Free;
      var i := 0;
      while i < nscans
        invariant 0 <= i && Valid()
        invariant DropFrom(Now(), i) == Drop(old(Now()))
        decreases NSCANS - i
      {
        if scans[i].flags.stale { FreeScanSlot(i); }
        i := i + 1;
      }
    }

    // parse_scan_result (wsupp_netlink.c:224-246); the elements are len bytes of buf.
    method ParseScanResult(bssid: Mac, freq: int, signal: int, buf: array<Octet>, off: nat, len: nat)
      requires Valid() && Readable(buf, off, len)
      modifies this, scans
      ensures Valid() && Now() == Take(old(Now()), Report(bssid, freq, signal, old(buf[off..off + len])))
    {
      hide Grab, ApplyIes;
      ghost var ies := buf[off..off + len];
      var i := GrabScanSlot(bssid);
      if i < 0 { return; }
      var sc := scans[i].(bssid := bssid, freq := Short(freq), signal := Short(signal), types := NO_TYPES,
                          flags := scans[i].flags.(stale := false));
      sc := ParseStationIes(sc, buf, off, len);
      scans[i] := sc;
    }
  }
}

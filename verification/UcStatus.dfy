/** The status reply (wsupp_cntrl.c:162-261): a list of items written into a block whose
    size is estimated beforehand. */
module UcStatus {
  import opened Octets
  import opened Scan
  import opened StationSpec
  import opened UcFormat
  import opened UcMessage
  import opened UcBuffer
  import opened Wrappers

  const ATTR_SSID := 1
  const ATTR_PRIO := 3
  const ATTR_SIGNAL := 4
  const ATTR_FREQ := 5
  const ATTR_TYPE := 6
  const ATTR_BSSID := 7
  const ATTR_SCAN := 8
  const ATTR_IFI := 9
  const ATTR_NAME := 10
  const ATTR_STATE := 11

  // sc->type
  function TypeBits(t: Types): nat {
    (if t.wps then 1 else 0) + (if t.wpa then 2 else 0) + (if t.psk then 16 else 0)
    + (if t.pairTkip then 32 else 0) + (if t.pairCcmp then 64 else 0)
    + (if t.groupTkip then 128 else 0) + (if t.groupCcmp then 256 else 0)
  }

  // common_wifi_state
  function WifiState(s: State): nat {
    if s.auth == Connected then 6
    else if s.auth == NetDown then if s.rfkilled then 1 else 2
    else if s.auth == External then 3
    else if s.auth != Idle then 5
    else if s.scan != NoScan then 4
    else 0
  }

  // put_status_wifi
  function WifiItems(ifi: int, name: seq<Octet>, s: State): seq<Item> {
    [Bin(Attr(ATTR_IFI, Int4(ifi))), Bin(Attr(ATTR_NAME, name + [0])), Bin(Attr(ATTR_STATE, Int4(WifiState(s))))]
    + ApItems(s)
  }

  // The AP, as far as there is one.
  function ApItems(s: State): seq<Item> {
    (if s.auth != Idle || s.ap.fixed then [Bin(Attr(ATTR_SSID, s.ap.ssid[..s.ap.slen]))] else [])
    + if s.auth != Idle then [Bin(Attr(ATTR_BSSID, s.ap.bssid)), Bin(Attr(ATTR_FREQ, Int4(s.ap.freq)))] else []
  }

  function ScanAttrs(sc: Scan): seq<Attr> {
    [Attr(ATTR_FREQ, Int4(sc.freq)), Attr(ATTR_TYPE, Int4(TypeBits(sc.types))), Attr(ATTR_SIGNAL, Int4(sc.signal)),
     Attr(ATTR_BSSID, sc.bssid), Attr(ATTR_SSID, sc.ssid[..sc.slen])]
    + if sc.flags.pass && sc.flags.good then [Attr(ATTR_PRIO, [])] else []
  }

  // put_status_scans on the first n slots
  function ScanItems(s: seq<Scan>): seq<Item> {
    if s == [] then []
    else
      var sc := s[|s| - 1];
      ScanItems(s[..|s| - 1]) + if sc.freq == 0 then [] else [Nest(ATTR_SCAN, ScanAttrs(sc))]
  }

  function StatusItems(ifi: int, name: seq<Octet>, s: State): seq<Item>
    requires Fit(s)
  {
    WifiItems(ifi, name, s) + ScanItems(s.table.slots[..s.table.n])
  }

  // sizeof(struct scan) and sizeof(struct ucattr)
  const SCAN_SIZE := 48
  const ATTR_SIZE := 4

  // estimate_status, and the rounding of prep_heap
  function Estimate(nscans: nat): nat { nscans * (SCAN_SIZE + 10 * ATTR_SIZE) + 128 }

  function Rounded(size: nat): (r: nat)
    ensures r >= size && r % 4096 == 0
  {
    size + (4096 - size % 4096) % 4096
  }

  // ---- Sizes ----

  lemma OneAttr(a: Attr)
    ensures EncodeAttrs([a]) == EncodeAttr(a)
  {
    hide EncodeAttr;
    assert EncodeAttrs([a]) == EncodeAttr(a) + EncodeAttrs([]);
  }

  lemma Push(l: seq<Attr>, a: Attr)
    ensures |EncodeAttrs(l + [a])| == |EncodeAttrs(l)| + 4 + |a.payload| + Pad(4 + |a.payload|)
  {
    hide Header;
    AttrsInTwo(l, [a]);
    OneAttr(a);
  }

  lemma ScanAttrsSize(sc: Scan)
    ensures |EncodeAttrs(ScanAttrs(sc))| <= 76
  {
    hide EncodeAttrs, EncodeAttr, TypeBits, Int4;
    var l := ScanAttrs(sc);
    var a, b, c := l[..1], l[..2], l[..3];
    var d, e := l[..4], l[..5];
    EncodeNone();
    Push([], l[0]);
    assert a == [] + [l[0]] && b == a + [l[1]] && c == b + [l[2]] && d == c + [l[3]] && e == d + [l[4]];
    Push(a, l[1]);
    Push(b, l[2]);
    Push(c, l[3]);
    Push(d, l[4]);
    if |l| == 6 {
      assert l == e + [l[5]];
      Push(e, l[5]);
    } else {
      assert l == e;
    }
  }

  lemma ScanSize(sc: Scan)
    ensures |EncodeItems([Nest(ATTR_SCAN, ScanAttrs(sc))])| <= 80
    ensures ItemsSmall([Nest(ATTR_SCAN, ScanAttrs(sc))])
  {
    hide EncodeAttrs, TypeBits, Int4;
    var l := ScanAttrs(sc);
    ScanAttrsSize(sc);
    OneItem(Nest(ATTR_SCAN, l));
    EncodedNest(ATTR_SCAN, l);
  }

  lemma {:induction false} ScansSize(s: seq<Scan>)
    ensures |EncodeItems(ScanItems(s))| <= 80 * |s| && ItemsSmall(ScanItems(s))
  {
    hide EncodeItems, ScanAttrs, ItemsSmall;
    NoItems();
    if s == [] {
      SmallNone();
    } else {
      var n := |s| - 1;
      ScansSize(s[..n]);
      ScanSize(s[n]);
      var i := [Nest(ATTR_SCAN, ScanAttrs(s[n]))];
      ItemsInTwo(ScanItems(s[..n]), i);
      SmallInTwo(ScanItems(s[..n]), i);
      assert ScanItems(s[..n]) + [] == ScanItems(s[..n]);
    }
  }

  lemma SmallNone()
    ensures ItemsSmall([])
  {
  }

  lemma SmallInTwo(a: seq<Item>, b: seq<Item>)
    requires ItemsSmall(a) && ItemsSmall(b)
    ensures ItemsSmall(a + b)
  {
    hide Small, Flat;
  }

  lemma BinSize(a: Attr)
    requires Small(a)
    ensures |EncodeItems([Bin(a)])| == 4 + |a.payload| + Pad(4 + |a.payload|) && ItemsSmall([Bin(a)])
  {
    hide EncodeAttrs;
    OneItem(Bin(a));
  }

  lemma TwoBins(l: seq<Item>, a: Attr)
    requires ItemsSmall(l) && Small(a)
    ensures |EncodeItems(l + [Bin(a)])| == |EncodeItems(l)| + 4 + |a.payload| + Pad(4 + |a.payload|)
    ensures ItemsSmall(l + [Bin(a)])
  {
    hide EncodeItems, ItemsSmall, Small;
    BinSize(a);
    ItemsInTwo(l, [Bin(a)]);
    SmallInTwo(l, [Bin(a)]);
  }

  lemma WifiSize(ifi: int, name: seq<Octet>, s: State)
    requires |name| <= 40
    ensures |EncodeItems(WifiItems(ifi, name, s))| <= 80 + |name| && ItemsSmall(WifiItems(ifi, name, s))
  {
    hide EncodeItems, ItemsSmall, WifiState;
    var a, b, c := Attr(ATTR_IFI, Int4(ifi)), Attr(ATTR_NAME, name + [0]), Attr(ATTR_STATE, Int4(WifiState(s)));
    var d := Attr(ATTR_SSID, s.ap.ssid[..s.ap.slen]);
    var e, f := Attr(ATTR_BSSID, s.ap.bssid), Attr(ATTR_FREQ, Int4(s.ap.freq));
    var l := [Bin(a)];
    BinSize(a);
    TwoBins(l, b);
    l := l + [Bin(b)];
    TwoBins(l, c);
    l := l + [Bin(c)];
    assert l == [Bin(a), Bin(b), Bin(c)];
    if s.auth != Idle || s.ap.fixed {
      TwoBins(l, d);
      l := l + [Bin(d)];
    }
    if s.auth != Idle {
      TwoBins(l, e);
      l := l + [Bin(e)];
      TwoBins(l, f);
      l := l + [Bin(f)];
    }
    assert l == WifiItems(ifi, name, s);
  }

  // However many slots are in use and whatever they hold, the reply fits the block: with
  // an interface name of up to 40 bytes (the kernel allows 15) nothing is dropped, and it
  // reads back as every item put into it.
  lemma StatusFits(ifi: int, name: seq<Octet>, s: State)
    requires Fit(s) && |name| <= 40
    ensures var l := StatusItems(ifi, name, s); var o := Message(Rounded(Estimate(s.table.n)), 0, l);
      && !o.over && IsMessage(o.bytes) && Read4(o.bytes, 0) == |o.bytes| >= HEADER
      && Attrs(Payload(o.bytes)) == Flats(l)
      && forall k :: 0 <= k < |l| && l[k].Nest? ==> Attrs(Flats(l)[k].payload) == l[k].subs
  {
    hide EncodeItems, WifiItems, ScanItems, ItemsSmall, Message, FitItems, Attrs, Flats;
    var l := StatusItems(ifi, name, s);
    WifiSize(ifi, name, s);
    ScansSize(s.table.slots[..s.table.n]);
    ItemsInTwo(WifiItems(ifi, name, s), ScanItems(s.table.slots[..s.table.n]));
    SmallInTwo(WifiItems(ifi, name, s), ScanItems(s.table.slots[..s.table.n]));
    var cap := Rounded(Estimate(s.table.n));
    MessageReadsBack(cap, 0, l);
    FitsWhole(cap, 0, l);
  }

  // ---- The reply in place ----

  lemma {:induction false} PutInTwo(o: Out, a: seq<Item>, b: seq<Item>)
    ensures PutItems(o, a + b) == PutItems(PutItems(o, a), b)
    decreases |a|
  {
    hide PutItem;
    if a == [] {
      assert a + b == b;
    } else {
      PutInTwo(PutItem(o, a[0]), a[1..], b);
      assert (a + b)[1..] == a[1..] + b;
    }
  }

  lemma PutOne(o: Out, l: seq<Item>, i: Item)
    ensures PutItems(o, l + [i]) == PutItem(PutItems(o, l), i)
  {
    hide PutItem;
    PutInTwo(o, l, [i]);
    assert [i][1..] == [];
  }

  // put_status_wifi; s is what the global variables hold.
  method PutStatusWifi(uc: UcBuf, ifi: int, name: seq<Octet>, s: State)
    requires uc.Valid()
    modifies uc, uc.brk
    ensures uc.Valid() && uc.brk == old(uc.brk) && uc.Now() == PutItems(old(uc.Now()), WifiItems(ifi, name, s))
  {
    hide PutItems, PutBin, WifiState, Int4, ApItems;
    ghost var o := uc.Now();
    ghost var l: seq<Item> := [];
    NoPuts(o);
    uc.PutInt(ATTR_IFI, ifi);
    l := PutMore(o, l, Attr(ATTR_IFI, Int4(ifi)), uc.Now());
    uc.PutStr(ATTR_NAME, name);
    l := PutMore(o, l, Attr(ATTR_NAME, name + [0]), uc.Now());
    uc.PutInt(ATTR_STATE, WifiState(s));
    l := PutMore(o, l, Attr(ATTR_STATE, Int4(WifiState(s))), uc.Now());
    assert l == [Bin(Attr(ATTR_IFI, Int4(ifi))), Bin(Attr(ATTR_NAME, name + [0])), Bin(Attr(ATTR_STATE, Int4(WifiState(s))))];
    PutStatusAp(uc, s);
    PutInTwo(o, l, ApItems(s));
  }

  method PutStatusAp(uc: UcBuf, s: State)
    requires uc.Valid()
    modifies uc, uc.brk
    ensures uc.Valid() && uc.brk == old(uc.brk) && uc.Now() == PutItems(old(uc.Now()), ApItems(s))
  {
    hide PutItems, PutBin, Int4;
    ghost var o := uc.Now();
    ghost var l: seq<Item> := [];
    NoPuts(o);
    if s.auth != Idle || s.ap.fixed {
      uc.PutBin(ATTR_SSID, s.ap.ssid[..s.ap.slen]);
      l := PutMore(o, l, Attr(ATTR_SSID, s.ap.ssid[..s.ap.slen]), uc.Now());
    }
    if s.auth != Idle {
      uc.PutBin(ATTR_BSSID, s.ap.bssid);
      l := PutMore(o, l, Attr(ATTR_BSSID, s.ap.bssid), uc.Now());
      uc.PutInt(ATTR_FREQ, s.ap.freq);
      l := PutMore(o, l, Attr(ATTR_FREQ, Int4(s.ap.freq)), uc.Now());
    }
    assert l == ApItems(s);
  }

  lemma NoPuts(o: Out)
    ensures PutItems(o, []) == o
  {
  }

  lemma PutMore(o: Out, l: seq<Item>, a: Attr, now: Out) returns (r: seq<Item>)
    requires now == PutBin(PutItems(o, l), a)
    ensures r == l + [Bin(a)] && now == PutItems(o, r)
  {
    hide PutItems, PutBin;
    r := l + [Bin(a)];
    PutOne(o, l, Bin(a));
  }

  // The members of one nest of put_status_scans.
  method PutScanAttrs(uc: UcBuf, sc: Scan)
    requires uc.Valid()
    modifies uc, uc.brk
    ensures uc.Valid() && uc.brk == old(uc.brk) && uc.Now() == PutAttrs(old(uc.Now()), ScanAttrs(sc))
  {
    hide PutAttrs, PutBin, TypeBits, Int4;
    ghost var o := uc.Now();
    ghost var l: seq<Attr> := [];
    NoAttrs(o);
    uc.PutInt(ATTR_FREQ, sc.freq);
    l := AttrMore(o, l, Attr(ATTR_FREQ, Int4(sc.freq)), uc.Now());
    uc.PutInt(ATTR_TYPE, TypeBits(sc.types));
    l := AttrMore(o, l, Attr(ATTR_TYPE, Int4(TypeBits(sc.types))), uc.Now());
    uc.PutInt(ATTR_SIGNAL, sc.signal);
    l := AttrMore(o, l, Attr(ATTR_SIGNAL, Int4(sc.signal)), uc.Now());
    uc.PutBin(ATTR_BSSID, sc.bssid);
    l := AttrMore(o, l, Attr(ATTR_BSSID, sc.bssid), uc.Now());
    uc.PutBin(ATTR_SSID, sc.ssid[..sc.slen]);
    l := AttrMore(o, l, Attr(ATTR_SSID, sc.ssid[..sc.slen]), uc.Now());
    if sc.flags.pass && sc.flags.good {
      var at := uc.PutEmpty(ATTR_PRIO);
      l := AttrMore(o, l, Attr(ATTR_PRIO, []), uc.Now());
    }
    assert l == ScanAttrs(sc);
  }

  // One nest of put_status_scans.
  method PutStatusScan(uc: UcBuf, sc: Scan)
    requires uc.Valid()
    modifies uc, uc.brk
    ensures uc.Valid() && uc.brk == old(uc.brk)
    ensures uc.Now() == PutItem(old(uc.Now()), Nest(ATTR_SCAN, ScanAttrs(sc)))
  {
    hide PutAttrs, PutBin, EndNest, ScanAttrs;
    var nn := uc.PutEmpty(ATTR_SCAN);
    PutScanAttrs(uc, sc);
    uc.EndNest(nn);
  }

  lemma NoAttrs(o: Out)
    ensures PutAttrs(o, []) == o
  {
  }

  lemma {:induction false} AttrsPutInTwo(o: Out, a: seq<Attr>, b: seq<Attr>)
    ensures PutAttrs(o, a + b) == PutAttrs(PutAttrs(o, a), b)
    decreases |a|
  {
    hide PutBin;
    if a == [] {
      assert a + b == b;
    } else {
      AttrsPutInTwo(PutBin(o, a[0]), a[1..], b);
      assert (a + b)[1..] == a[1..] + b;
    }
  }

  lemma AttrMore(o: Out, l: seq<Attr>, a: Attr, now: Out) returns (r: seq<Attr>)
    requires now == PutBin(PutAttrs(o, l), a)
    ensures r == l + [a] && now == PutAttrs(o, r)
  {
    hide PutBin;
    r := l + [a];
    AttrsPutInTwo(o, l, [a]);
    assert [a][1..] == [];
  }

  // put_status_scans
  method PutStatusScans(uc: UcBuf, scans: array<Scan>, nscans: nat)
    requires uc.Valid() && nscans <= scans.Length
    modifies uc, uc.brk
    ensures uc.Valid() && uc.brk == old(uc.brk)
    ensures uc.Now() == PutItems(old(uc.Now()), ScanItems(old(scans[..nscans])))
  {
    hide PutItems, PutItem, ScanAttrs;
    ghost var o, s := uc.Now(), scans[..nscans];
    NoPuts(o);
    var i := 0;
    while i < nscans
      invariant 0 <= i <= nscans && uc.Valid() && uc.brk == old(uc.brk) && scans[..nscans] == s
      invariant uc.Now() == PutItems(o, ScanItems(s[..i]))
    {
      assert s[..i + 1][..i] == s[..i];
      if scans[i].freq != 0 {
        PutOne(o, ScanItems(s[..i]), Nest(ATTR_SCAN, ScanAttrs(scans[i])));
        PutStatusScan(uc, scans[i]);
      } else {
        assert ScanItems(s[..i]) + [] == ScanItems(s[..i]);
      }
      i := i + 1;
    }
    assert s[..nscans] == s;
  }

  // cmd_status up to the sending: the block and the length of the reply in it.
  method CmdStatus(ifi: int, name: seq<Octet>, s: State, scans: array<Scan>, nscans: nat)
    returns (heap: array<Octet>, len: nat)
    requires Fit(s) && nscans == s.table.n && scans[..] == s.table.slots && |name| <= 40
    ensures fresh(heap) && len <= heap.Length && heap.Length % 4096 == 0
    ensures IsMessage(heap[..len]) && Read4(heap[..len], 0) == len >= HEADER
    ensures Attrs(Payload(heap[..len])) == Flats(StatusItems(ifi, name, s))
  {
    hide PutItems, WifiItems, ScanItems, Attrs, Flats, UcMessage.PutHdr, UcMessage.PutEnd;
    var size := nscans * (SCAN_SIZE + 10 * ATTR_SIZE) + 128;
    size := size + (4096 - size % 4096) % 4096;
    heap := new Octet[size];
    var uc := new UcBuf(heap, size);
    uc.PutHdr(0);
    ghost var o := uc.Now();
    PutStatusWifi(uc, ifi, name, s);
    PutStatusScans(uc, scans, nscans);
    PutInTwo(o, WifiItems(ifi, name, s), ScanItems(scans[..nscans]));
    uc.PutEnd();
    len := uc.ptr;
    StatusFits(ifi, name, s);
    assert heap[..len] == Message(size, 0, StatusItems(ifi, name, s)).bytes;
  }
}

/** The messages of start_scan, trigger_authentication and trigger_associaction
    (wsupp_netlink.c:127-168, 286-325): what they say, and that the 512-byte transmit
    buffer always holds them, so that nl_send has no overflow to report. */
module NlCommands {
  import opened Octets
  import opened Scan
  import opened StationSpec
  import opened NlAttr
  import opened NlPack
  import opened Wrappers
  import U = UcFormat
  import opened Seqs

  const CMD_TRIGGER_SCAN := 33
  const CMD_AUTHENTICATE := 37
  const CMD_ASSOCIATE := 38
  const ATTR_IFINDEX := 3
  const ATTR_MAC := 6
  const ATTR_WIPHY_FREQ := 38
  const ATTR_IE := 42
  const ATTR_SCAN_FREQUENCIES := 44
  const ATTR_SSID := 52
  const ATTR_AUTH_TYPE := 53

  // ies_ccmp_ccmp and ies_ccmp_tkip (wsupp_apsel.c:23-45)
  function Ies(tkip: bool): (s: seq<Octet>)
    ensures |s| == 22
  {
    [0x30, 0x14, 0x01, 0x00, 0x00, 0x0F, 0xAC, if tkip then 0x02 else 0x04, 0x01, 0x00, 0x00, 0x0F, 0xAC, 0x04,
     0x01, 0x00, 0x00, 0x0F, 0xAC, 0x02, 0x00, 0x00]
  }

  function ScanAttrs(ifi: int, freq: int): seq<Attr> {
    [U.Attr(ATTR_IFINDEX, Int4(ifi))]
    + if freq > 0 then [U.Attr(ATTR_SCAN_FREQUENCIES, U.EncodeAttr(U.Attr(0, Int4(freq))))] else []
  }

  function ApAttrs(ifi: int, who: Target): seq<Attr> {
    [U.Attr(ATTR_IFINDEX, Int4(ifi)), U.Attr(ATTR_MAC, who.bssid), U.Attr(ATTR_WIPHY_FREQ, Int4(who.freq)),
     U.Attr(ATTR_SSID, who.ssid)]
  }

  function AuthAttrs(ifi: int, who: Target): seq<Attr> { ApAttrs(ifi, who) + [U.Attr(ATTR_AUTH_TYPE, Int4(0))] }
  function AssocAttrs(ifi: int, who: Target): seq<Attr> { ApAttrs(ifi, who) + [U.Attr(ATTR_IE, Ies(who.tkip))] }

  // The message in nl is complete and carries l.
  ghost predicate Carries(nl: Netlink, l: seq<Attr>, ver: Octet, cmd: Octet, fam: nat)
    reads nl, nl.txbuf
  {
    nl.Valid() && !nl.txover && nl.Holds(20, l) && nl.txbuf[4..20] == GenHeader(fam, nl.seq_, cmd, ver)[4..]
    && nl.txbuf[..4] == Le4(nl.txend % WORD)
  }

  lemma FourBytes(a: Attr)
    requires |a.payload| == 4
    ensures Extend(4 + |a.payload|) == 8
  {
  }

  // The two calls of start_scan that make up the frequency list.
  method PutFrequencies(nl: Netlink, freq: int, ghost l: seq<Attr>)
    requires nl.Valid() && nl.Holds(20, l) && !nl.txover && nl.txend + 12 <= nl.txlen
    modifies nl, nl.txbuf
    ensures nl.Valid() && !nl.txover && nl.seq_ == old(nl.seq_) && nl.txbuf[4..20] == old(nl.txbuf[4..20])
    ensures nl.Holds(20, l + [U.Attr(ATTR_SCAN_FREQUENCIES, U.EncodeAttr(U.Attr(0, Int4(freq))))])
    ensures nl.txbuf[..4] == Le4(nl.txend % WORD)
  {
    hide Packed, Aligned, Extend, U.Header, U.EncodeAttr, Int4;
    ghost var a := U.Attr(0, Int4(freq));
    ghost var s := nl.txbuf[20..nl.txend];
    var at := nl.PutNest(ATTR_SCAN_FREQUENCIES);
    assert nl.txbuf[20..at] == s && nl.txbuf[4..20] == old(nl.txbuf[4..20]);
    assert nl.txbuf[at + 4..at + 4] == [];
    PackedNone([]);
    FourBytes(a);
    ghost var head := nl.txbuf[4..at + 4];
    HeadParts(nl.txbuf[..], at);
    nl.Put(0, Int4(freq), at + 4, []);
    HeadParts(nl.txbuf[..], at);
    assert [] + [a] == [a];
    assert nl.txbuf[20..at] == head[16..at - 4] && nl.txbuf[at..at + 4] == head[at - 4..at];
    PackedIs(nl.txbuf[at + 4..nl.txend], a);
    nl.EndNest(at, ATTR_SCAN_FREQUENCIES, 20, l);
    assert nl.txbuf[4..20] == nl.txbuf[..20][4..] && nl.txbuf[..4] == nl.txbuf[..20][..4];
  }

  // The parts of the message in front of the first member of a nest.
  lemma HeadParts(s: seq<Octet>, at: nat)
    requires 20 <= at && at + 4 <= |s|
    ensures var head := s[4..at + 4];
      head[..16] == s[4..20] && head[16..at - 4] == s[20..at] && head[at - 4..at] == s[at..at + 4]
  {
    var head := s[4..at + 4];
    forall k | 0 <= k < at - 20
      ensures head[16..at - 4][k] == s[20..at][k]
    {
      assert head[16 + k] == s[20 + k];
    }
  }

  lemma PackedIs(s: seq<Octet>, a: Attr)
    requires |a.payload| == 4 && Packed(s, [a])
    ensures s == U.EncodeAttr(a)
  {
    hide U.Header;
    assert [a][1..] == [];
    assert Fill(Pad(8), 0) == [];
    assert s == s[..4] + s[4..8];
  }

  // One more attribute, where there is room for it.
  method PutOne(nl: Netlink, key: nat, data: seq<Octet>, ghost l: seq<Attr>)
    requires nl.Valid() && nl.Holds(20, l) && !nl.txover && nl.txend + 4 + |data| <= nl.txlen
    modifies nl, nl.txbuf
    ensures nl.Valid() && !nl.txover && nl.seq_ == old(nl.seq_) && nl.txbuf[4..20] == old(nl.txbuf[4..20])
    ensures nl.Holds(20, l + [U.Attr(key, data)]) && nl.txend < old(nl.txend) + |data| + 8
    ensures nl.txbuf[..4] == Le4(nl.txend % WORD)
  {
    hide Packed, Aligned;
    nl.Put(key, data, 20, l);
  }

  // start_scan up to the sending
  method TriggerScanMessage(nl: Netlink, fam: nat, ifi: int, freq: int)
    requires nl.Valid() && nl.txlen == 512
    modifies nl, nl.txbuf
    ensures Carries(nl, ScanAttrs(ifi, freq), 0, CMD_TRIGGER_SCAN, fam)
  {
    hide Packed, Aligned, GenHeader, U.EncodeAttr, Int4;
    nl.NewCmd(fam, CMD_TRIGGER_SCAN, 0);
    assert nl.txbuf[4..20] == nl.txbuf[..20][4..];
    PutOne(nl, ATTR_IFINDEX, Int4(ifi), []);
    assert [] + [U.Attr(ATTR_IFINDEX, Int4(ifi))] == [U.Attr(ATTR_IFINDEX, Int4(ifi))];
    if freq > 0 {
      PutFrequencies(nl, freq, [U.Attr(ATTR_IFINDEX, Int4(ifi))]);
    } else {
      assert ScanAttrs(ifi, freq) == [U.Attr(ATTR_IFINDEX, Int4(ifi))];
    }
  }

  // What trigger_authentication and trigger_associaction have in common.
  method PutAp(nl: Netlink, ifi: int, who: Target)
    requires nl.Valid() && nl.txlen == 512 && nl.Holds(20, []) && nl.txend == 20 && !nl.txover && |who.ssid| <= SSIDLEN
    modifies nl, nl.txbuf
    ensures nl.Valid() && !nl.txover && nl.seq_ == old(nl.seq_) && nl.txbuf[4..20] == old(nl.txbuf[4..20])
    ensures nl.Holds(20, ApAttrs(ifi, who)) && nl.txend < 150
  {
    hide Packed, Aligned, Int4;
    ghost var l: seq<Attr> := [];
    PutOne(nl, ATTR_IFINDEX, Int4(ifi), l);
    l := l + [U.Attr(ATTR_IFINDEX, Int4(ifi))];
    PutOne(nl, ATTR_MAC, who.bssid, l);
    l := l + [U.Attr(ATTR_MAC, who.bssid)];
    PutOne(nl, ATTR_WIPHY_FREQ, Int4(who.freq), l);
    l := l + [U.Attr(ATTR_WIPHY_FREQ, Int4(who.freq))];
    PutOne(nl, ATTR_SSID, who.ssid, l);
    l := l + [U.Attr(ATTR_SSID, who.ssid)];
    assert l == ApAttrs(ifi, who);
  }

  // trigger_authentication up to the sending
  method AuthenticateMessage(nl: Netlink, fam: nat, ifi: int, who: Target)
    requires nl.Valid() && nl.txlen == 512 && |who.ssid| <= SSIDLEN
    modifies nl, nl.txbuf
    ensures Carries(nl, AuthAttrs(ifi, who), 0, CMD_AUTHENTICATE, fam)
  {
    hide Packed, Aligned, GenHeader, Int4, ApAttrs;
    nl.NewCmd(fam, CMD_AUTHENTICATE, 0);
    assert nl.txbuf[4..20] == nl.txbuf[..20][4..];
    PutAp(nl, ifi, who);
    PutOne(nl, ATTR_AUTH_TYPE, Int4(0), ApAttrs(ifi, who));
  }

  // trigger_associaction up to the sending
  method AssociateMessage(nl: Netlink, fam: nat, ifi: int, who: Target)
    requires nl.Valid() && nl.txlen == 512 && |who.ssid| <= SSIDLEN
    modifies nl, nl.txbuf
    ensures Carries(nl, AssocAttrs(ifi, who), 0, CMD_ASSOCIATE, fam)
  {
    hide Packed, Aligned, GenHeader, ApAttrs;
    nl.NewCmd(fam, CMD_ASSOCIATE, 0);
    assert nl.txbuf[4..20] == nl.txbuf[..20][4..];
    PutAp(nl, ifi, who);
    PutOne(nl, ATTR_IE, Ies(who.tkip), ApAttrs(ifi, who));
  }

  // A reader of the message finds what was put: the frequency list passes for a nest,
  // and the scanned frequency is the one asked for.
  lemma ScanMessageReads(s: seq<Octet>, ifi: int, freq: int, p: nat)
    requires Packed(s, ScanAttrs(ifi, freq)) && freq > 0
    requires Aligned(|s|) && p == First(s, Walk(s, |s|), ATTR_SCAN_FREQUENCIES)
    ensures WhollyInside(s, p) && Read2(s, p) == 12
    ensures CheckNest(s[p + 4..p + 12])
    ensures WhollyInside(s[p + 4..p + 12], 0) && AttrAt(s[p + 4..p + 12], 0) == U.Attr(0, Int4(freq))
  {
    hide Packed, Walk, First, Int4, CheckNest, Aligned;
    var a := U.Attr(0, Int4(freq));
    FrequencyList(ifi, freq);
    PackedIsAccepted(s, ScanAttrs(ifi, freq));
    assert AttrAt(s, p).payload == U.EncodeAttr(a);
    EncodedIsPacked(a);
    ReadsFirst(U.EncodeAttr(a), a);
    assert s[p + 4..p + 12] == U.EncodeAttr(a);
  }

  lemma FrequencyList(ifi: int, freq: int)
    requires freq > 0
    ensures var a := U.EncodeAttr(U.Attr(0, Int4(freq)));
      |a| == 8 && U.Lookup(ScanAttrs(ifi, freq), ATTR_SCAN_FREQUENCIES) == Some(U.Attr(ATTR_SCAN_FREQUENCIES, a))
    ensures U.AllSmall(ScanAttrs(ifi, freq)) && ScanAttrs(ifi, freq) != []
  {
    hide Int4, U.Header;
    var l := ScanAttrs(ifi, freq);
    assert l[1..] == [l[1]];
  }

  lemma ReadsFirst(s: seq<Octet>, a: Attr)
    requires Packed(s, [a]) && |a.payload| == 4 && a.key == 0
    ensures CheckNest(s) && WhollyInside(s, 0) && AttrAt(s, 0) == a
  {
    hide Packed, Walk, CheckNest;
    PackedIsAccepted(s, [a]);
    assert |s| >= 8 by { PackedIs(s, a); }
    WalkStarts(s);
  }

  lemma WalkStarts(s: seq<Octet>)
    requires Aligned(|s|) && |Walk(s, |s|)| > 0
    ensures Walk(s, |s|)[0] == 0
  {
    hide Next;
  }

  lemma EncodedIsPacked(a: Attr)
    requires |a.payload| == 4
    ensures Packed(U.EncodeAttr(a), [a])
  {
    hide U.Header;
    FourBytes(a);
    var s := U.EncodeAttr(a);
    assert s[8..] == [] && [a][1..] == [];
  }
}

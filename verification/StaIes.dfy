/** Information elements of a station (wsupp_sta_ies.c): the RSN element of section
    8.4.2.27 of IEEE 802.11-2012, the SSID, and the vendor elements of WPA and WPS. */
module StaIes {
  import opened Octets
  import opened Scan
  import opened Seqs

  const SUITE_TKIP := 0x000FAC02
  const SUITE_CCMP := 0x000FAC04
  const AKM_PSK := 0x000FAC02

  // get2le and get4be (wsupp_sta_ies.c:29-43); get2le wants one byte more than it uses.
  function Get2le(s: seq<Octet>, p: nat): nat {
    if p + 3 > |s| then 0 else s[p] as int + s[p + 1] as int * 0x100
  }

  function Get4be(s: seq<Octet>, p: nat): nat {
    if p + 4 > |s| then 0
    else s[p] as int * 0x1000000 + s[p + 1] as int * 0x10000 + s[p + 2] as int * 0x100 + s[p + 3] as int
  }

  // Whether one of the n four-byte suites from p on is the wanted one; suites past the
  // end read as 0.
  ghost predicate HasSuite(s: seq<Octet>, p: nat, n: nat, suite: nat) {
    exists k :: 0 <= k < n && Get4be(s, p + 4 * k) == suite
  }

  // The type bits after an RSN element with payload s.
  ghost function RsnTypes(t: Types, s: seq<Octet>): Types {
    if Get2le(s, 0) != 1 then t
    else
      var pcnt := Get2le(s, 6);
      var akm := 8 + 4 * pcnt + 2;
      var acnt := Get2le(s, 8 + 4 * pcnt);
      t.(pairTkip := t.pairTkip || HasSuite(s, 8, pcnt, SUITE_TKIP),
         pairCcmp := t.pairCcmp || HasSuite(s, 8, pcnt, SUITE_CCMP),
         psk := t.psk || HasSuite(s, akm, acnt, AKM_PSK),
         groupTkip := t.groupTkip || Get4be(s, 2) == SUITE_TKIP,
         groupCcmp := t.groupCcmp || Get4be(s, 2) == SUITE_CCMP)
  }

  // parse_rsn_ie (wsupp_sta_ies.c:45-77)
  method ParseRsnIe(t0: Types, s: seq<Octet>) returns (t: Types)
    ensures t == RsnTypes(t0, s)
  {
    t := t0;
    var p := 0;
    var ver := Get2le(s, p);
    p := p + 2;
    if ver != 1 { return; }
    var group := Get4be(s, p);
    p := p + 4;
    var pcnt := Get2le(s, p);
    p := p + 2;
    var pair := p;
    p := p + 4 * pcnt;
    var acnt := Get2le(s, p);
    p := p + 2;
    var akm := p;
    t := ScanPairwise(t, s, pair, pcnt);
    var psk := ScanAkm(s, akm, acnt);
    if psk { t := t.(psk := true); }
    match group {
      case 0x000FAC02 => t := t.(groupTkip := true);
      case 0x000FAC04 => t := t.(groupCcmp := true);
      case _ =>
    }
  }

  // The two loops.
  method ScanPairwise(t0: Types, s: seq<Octet>, pair: nat, pcnt: nat) returns (t: Types)
    ensures t == t0.(pairTkip := t0.pairTkip || HasSuite(s, pair, pcnt, SUITE_TKIP),
                     pairCcmp := t0.pairCcmp || HasSuite(s, pair, pcnt, SUITE_CCMP))
  {
    hide Get4be;
    t := t0;
    var p := pair;
    ghost var k := 0;
    while p < pair + 4 * pcnt
      invariant 0 <= k <= pcnt && p == pair + 4 * k
      invariant t == t0.(pairTkip := t0.pairTkip || HasSuite(s, pair, k, SUITE_TKIP),
                         pairCcmp := t0.pairCcmp || HasSuite(s, pair, k, SUITE_CCMP))
    {
      var suite := Get4be(s, p);
      MoreSuites(s, pair, k, SUITE_TKIP);
      MoreSuites(s, pair, k, SUITE_CCMP);
      match suite {
        case 0x000FAC02 => t := t.(pairTkip := true);
        case 0x000FAC04 => t := t.(pairCcmp := true);
        case _ =>
      }
      p := p + 4;
      k := k + 1;
    }
  }

  method ScanAkm(s: seq<Octet>, akm: nat, acnt: nat) returns (psk: bool)
    ensures psk <==> HasSuite(s, akm, acnt, AKM_PSK)
  {
    hide Get4be;
    psk := false;
    var p := akm;
    ghost var k := 0;
    while p < akm + 4 * acnt
      invariant 0 <= k <= acnt && p == akm + 4 * k
      invariant psk <==> HasSuite(s, akm, k, AKM_PSK)
    {
      MoreSuites(s, akm, k, AKM_PSK);
      if Get4be(s, p) == AKM_PSK { psk := true; }
      p := p + 4;
      k := k + 1;
    }
  }

  lemma MoreSuites(s: seq<Octet>, p: nat, n: nat, suite: nat)
    ensures HasSuite(s, p, n + 1, suite) <==> HasSuite(s, p, n, suite) || Get4be(s, p + 4 * n) == suite
  {
    hide Get4be;
    if HasSuite(s, p, n, suite) {
      var k :| 0 <= k < n && Get4be(s, p + 4 * k) == suite;
      assert 0 <= k < n + 1;
    }
    if Get4be(s, p + 4 * n) == suite {
      assert 0 <= n < n + 1;
    }
  }

  // ---- Encoded RSN elements ----

  function Be4(n: nat): (s: seq<Octet>)
    requires n < 0x1_0000_0000
    ensures |s| == 4
  {
    var a := n / 0x100;
    var b := a / 0x100;
    [b / 0x100, b % 0x100, a % 0x100, n % 0x100]
  }

  type Suite = n: nat | n < 0x1_0000_0000

  function Suites(l: seq<Suite>): (s: seq<Octet>)
    ensures |s| == 4 * |l|
  {
    if l == [] then [] else Suites(l[..|l| - 1]) + Be4(l[|l| - 1])
  }

  lemma Get4beOfBe4(s: seq<Octet>, p: nat, n: Suite)
    requires p + 4 <= |s| && s[p..p + 4] == Be4(n)
    ensures Get4be(s, p) == n
  {
    var t := s[p..p + 4];
    assert s[p] == t[0] && s[p + 1] == t[1] && s[p + 2] == t[2] && s[p + 3] == t[3];
    FourDigits(n);
  }

  lemma FourDigits(n: Suite)
    ensures var t := Be4(n);
      t[0] as int * 0x1000000 + t[1] as int * 0x10000 + t[2] as int * 0x100 + t[3] as int == n
  {
    var a := n / 0x100;
    var b := a / 0x100;
    assert n == a * 0x100 + n % 0x100 && a == b * 0x100 + a % 0x100 && b == b / 0x100 * 0x100 + b % 0x100;
  }

  lemma {:induction false} SuitesAt(l: seq<Suite>, k: nat)
    requires k < |l|
    ensures Suites(l)[4 * k..4 * k + 4] == Be4(l[k])
  {
    hide Be4;
    var n := |l| - 1;
    if k < n {
      SuitesAt(l[..n], k);
      assert Suites(l)[4 * k..4 * k + 4] == Suites(l[..n])[4 * k..4 * k + 4];
    }
  }

  lemma SuiteValue(s: seq<Octet>, p: nat, l: seq<Suite>, k: nat)
    requires k < |l| && p + 4 * |l| <= |s| && s[p..p + 4 * |l|] == Suites(l)
    ensures Get4be(s, p + 4 * k) == l[k]
  {
    hide Be4, Get4be, Suites;
    SuitesAt(l, k);
    SliceOfSlice(s, p, p + 4 * |l|, 4 * k, 4 * k + 4);
    Get4beOfBe4(s, p + 4 * k, l[k]);
  }

  // A list of suites inside the payload reads back as its members.
  lemma HasSuiteOfList(s: seq<Octet>, p: nat, l: seq<Suite>, suite: nat)
    requires p + 4 * |l| <= |s| && s[p..p + 4 * |l|] == Suites(l)
    ensures HasSuite(s, p, |l|, suite) <==> suite in l
  {
    hide Be4, Get4be, Suites;
    if HasSuite(s, p, |l|, suite) {
      var k: nat :| k < |l| && Get4be(s, p + 4 * k) == suite;
      SuiteValue(s, p, l, k);
    }
    if suite in l {
      var k: nat :| k < |l| && l[k] == suite;
      SuiteValue(s, p, l, k);
    }
  }

  function EncodeRsn(group: Suite, pairs: seq<Suite>, akms: seq<Suite>, rest: seq<Octet>): seq<Octet>
    requires |pairs| < 0x10000 && |akms| < 0x10000
  {
    [1, 0] + Be4(group) + Le2(|pairs|) + Suites(pairs) + Le2(|akms|) + Suites(akms) + rest
  }

  lemma EncodedParts(group: Suite, pairs: seq<Suite>, akms: seq<Suite>, rest: seq<Octet>)
    requires |pairs| < 0x10000 && |akms| < 0x10000
    ensures var s := EncodeRsn(group, pairs, akms, rest);
      var m := 8 + 4 * |pairs|;
      && |s| == m + 2 + 4 * |akms| + |rest| && s[0] == 1 && s[1] == 0
      && s[2..6] == Be4(group) && s[6..8] == Le2(|pairs|) && s[8..m] == Suites(pairs)
      && s[m..m + 2] == Le2(|akms|) && s[m + 2..m + 2 + 4 * |akms|] == Suites(akms)
  {
    hide Be4, Le2, Suites;
    var s := EncodeRsn(group, pairs, akms, rest);
    var a := [1, 0] + Be4(group) + Le2(|pairs|);
    var b := a + Suites(pairs);
    var c := b + Le2(|akms|);
    assert s == c + Suites(akms) + rest;
    assert s[..8] == a && a[2..6] == Be4(group) && a[6..8] == Le2(|pairs|);
    assert s[2..6] == s[..8][2..6] && s[6..8] == s[..8][6..8];
    assert s[0] == s[..8][0] && s[1] == s[..8][1];
  }

  // An element encoded from its suites adds exactly the bits those suites justify.
  lemma RsnOfSuites(t: Types, group: Suite, pairs: seq<Suite>, akms: seq<Suite>, rest: seq<Octet>)
    requires |pairs| < 0x10000 && |akms| < 0x10000
    ensures RsnTypes(t, EncodeRsn(group, pairs, akms, rest))
         == t.(pairTkip := t.pairTkip || SUITE_TKIP in pairs, pairCcmp := t.pairCcmp || SUITE_CCMP in pairs,
               psk := t.psk || AKM_PSK in akms,
               groupTkip := t.groupTkip || group == SUITE_TKIP, groupCcmp := t.groupCcmp || group == SUITE_CCMP)
  {
    hide Be4, Suites, HasSuite, EncodeRsn, Get4be;
    var s := EncodeRsn(group, pairs, akms, rest);
    var m := 8 + 4 * |pairs|;
    EncodedParts(group, pairs, akms, rest);
    assert s[6] == s[6..8][0] && s[7] == s[6..8][1] && s[m] == s[m..m + 2][0] && s[m + 1] == s[m..m + 2][1];
    Get4beOfBe4(s, 2, group);
    assert Get2le(s, 0) == 1 && Get2le(s, 6) == |pairs|;
    // With no AKM suite and nothing behind it the count is out of get2le's reach, and 0.
    assert Get2le(s, m) == |akms|;
    HasSuiteOfList(s, 8, pairs, SUITE_TKIP);
    HasSuiteOfList(s, 8, pairs, SUITE_CCMP);
    HasSuiteOfList(s, m + 2, akms, AKM_PSK);
  }

  // Four consecutive bytes of the payload spell a suite.
  ghost predicate Spelled(s: seq<Octet>, suite: nat) {
    exists p :: 0 <= p <= |s| - 4 && Get4be(s, p) == suite
  }

  lemma SpelledBySuite(s: seq<Octet>, p: nat, n: nat, suite: nat)
    requires HasSuite(s, p, n, suite) && suite != 0
    ensures Spelled(s, suite)
  {
    var k :| 0 <= k < n && Get4be(s, p + 4 * k) == suite;
    assert p + 4 * k <= |s| - 4;
  }

  // Whatever the bytes are, no bit appears that four bytes of the element do not spell.
  lemma NoBitFromNowhere(t: Types, s: seq<Octet>)
    ensures var r := RsnTypes(t, s);
      && r.wps == t.wps && r.wpa == t.wpa
      && (r.pairTkip ==> t.pairTkip || Spelled(s, SUITE_TKIP))
      && (r.pairCcmp ==> t.pairCcmp || Spelled(s, SUITE_CCMP))
      && (r.psk ==> t.psk || Spelled(s, AKM_PSK))
      && (r.groupTkip ==> t.groupTkip || Spelled(s, SUITE_TKIP))
      && (r.groupCcmp ==> t.groupCcmp || Spelled(s, SUITE_CCMP))
  {
    hide HasSuite, Spelled;
    var r := RsnTypes(t, s);
    if Get2le(s, 0) == 1 {
      var pcnt := Get2le(s, 6);
      var akm := 8 + 4 * pcnt + 2;
      var acnt := Get2le(s, 8 + 4 * pcnt);
      if HasSuite(s, 8, pcnt, SUITE_TKIP) { SpelledBySuite(s, 8, pcnt, SUITE_TKIP); }
      if HasSuite(s, 8, pcnt, SUITE_CCMP) { SpelledBySuite(s, 8, pcnt, SUITE_CCMP); }
      if HasSuite(s, akm, acnt, AKM_PSK) { SpelledBySuite(s, akm, acnt, AKM_PSK); }
      if Get4be(s, 2) == SUITE_TKIP { SpelledByGroup(s, SUITE_TKIP); }
      if Get4be(s, 2) == SUITE_CCMP { SpelledByGroup(s, SUITE_CCMP); }
    }
  }

  lemma SpelledByGroup(s: seq<Octet>, suite: nat)
    requires Get4be(s, 2) == suite && suite != 0
    ensures Spelled(s, suite)
  {
    assert 2 <= |s| - 4;
  }

  // ---- Vendor elements and SSID ----

  const MS_OUI: seq<Octet> := [0x00, 0x50, 0xf2]

  // parse_vendor (wsupp_sta_ies.c:81-92)
  function VendorTypes(t: Types, s: seq<Octet>): Types {
    if |s| < 4 || s[..3] != MS_OUI then t
    else if s[3] == 1 then t.(wpa := true)
    else if s[3] == 4 then t.(wps := true)
    else t
  }

  // The size of s without its trailing zeros.
  function Trimmed(s: seq<Octet>): (n: nat)
    ensures n <= |s| && (n > 0 ==> s[n - 1] != 0) && forall k :: n <= k < |s| ==> s[k] == 0
  {
    if s == [] || s[|s| - 1] != 0 then |s| else Trimmed(s[..|s| - 1])
  }

  // set_station_ssid (wsupp_sta_ies.c:94-108): what was in the buffer beyond the copied
  // bytes stays there.
  function WithSsid(sc: Scan, s: seq<Octet>): Scan {
    var n := if |s| > SSIDLEN then SSIDLEN else |s|;
    sc.(ssid := s[..n] + sc.ssid[n..], slen := Trimmed(s[..n]))
  }

  method SetStationSsid(sc: Scan, s: seq<Octet>) returns (r: Scan)
    ensures r == WithSsid(sc, s)
  {
    var len := |s|;
    if len > SSIDLEN { len := SSIDLEN; }
    var i := len;
    while i > 0
      invariant 0 <= i <= len && Trimmed(s[..i]) == Trimmed(s[..len])
    {
      if s[i - 1] != 0 { break; }
      assert s[..i][..i - 1] == s[..i - 1];
      i := i - 1;
    }
    r := sc.(ssid := s[..len] + sc.ssid[len..], slen := i);
  }

  // ---- The element sequence ----

  ghost function ApplyIe(sc: Scan, tag: Octet, payload: seq<Octet>): Scan {
    if tag == 0 then WithSsid(sc, payload)
    else if tag == 48 then sc.(types := RsnTypes(sc.types, payload))
    else if tag == 221 then sc.(types := VendorTypes(sc.types, payload))
    else sc
  }

  // Up to the first element that does not fit.
  ghost function ApplyIes(sc: Scan, s: seq<Octet>): Scan
    decreases |s|
  {
    if |s| < 2 || 2 + s[1] as int > |s| then sc
    else ApplyIes(ApplyIe(sc, s[0], s[2..2 + s[1] as int]), s[2 + s[1] as int..])
  }

  // One byte is left over where the elements end.
  ghost predicate LoneByte(s: seq<Octet>)
    decreases |s|
  {
    |s| == 1 || (|s| >= 2 && 2 + s[1] as int <= |s| && LoneByte(s[2 + s[1] as int..]))
  }

  // What parse_station_ies may read: the elements, and one byte behind a lone byte, where
  // its length is looked for; the value of that byte is of no consequence.
  ghost predicate Readable(buf: array<Octet>, off: nat, len: nat)
    reads buf
  {
    off + len <= buf.Length && (LoneByte(buf[off..off + len]) ==> off + len < buf.Length)
  }

  // parse_station_ies (wsupp_sta_ies.c:110-130)
  method ParseStationIes(sc: Scan, buf: array<Octet>, off: nat, len: nat) returns (r: Scan)
    requires Readable(buf, off, len)
    ensures r == ApplyIes(sc, buf[off..off + len])
  {
    hide ApplyIe;
    r := sc;
    var ptr, end := off, off + len;
    while ptr < end
      invariant off <= ptr <= end
      invariant ApplyIes(r, buf[ptr..end]) == ApplyIes(sc, buf[off..end])
      invariant LoneByte(buf[ptr..end]) ==> LoneByte(buf[off..end])
    {
      ghost var s := buf[ptr..end];
      var ielen := 2 + buf[ptr + 1] as int;
      if ptr + ielen > end { break; }
      var payload := buf[ptr + 2..ptr + ielen];
      assert s[2..ielen] == payload && s[ielen..] == buf[ptr + ielen..end];
      r := ParseOne(r, buf[ptr], payload);
      ptr := ptr + ielen;
    }
  }

  method ParseOne(sc: Scan, tag: Octet, payload: seq<Octet>) returns (r: Scan)
    ensures r == ApplyIe(sc, tag, payload)
  {
    hide RsnTypes;
    r := sc;
    if tag == 0 {
      r := SetStationSsid(sc, payload);
    } else if tag == 48 {
      var t := ParseRsnIe(sc.types, payload);
      r := sc.(types := t);
    } else if tag == 221 {
      r := sc.(types := VendorTypes(sc.types, payload));
    }
  }

  datatype Ie = Ie(tag: Octet, payload: seq<Octet>)

  ghost predicate Fit(ies: seq<Ie>) { forall k :: 0 <= k < |ies| ==> |ies[k].payload| < 256 }

  ghost function EncodeIes(ies: seq<Ie>): seq<Octet>
    requires Fit(ies)
  {
    if ies == [] then [] else [ies[0].tag, |ies[0].payload|] + ies[0].payload + EncodeIes(ies[1..])
  }

  ghost function FoldIes(sc: Scan, ies: seq<Ie>): Scan
    decreases |ies|
  {
    if ies == [] then sc else FoldIes(ApplyIe(sc, ies[0].tag, ies[0].payload), ies[1..])
  }

  // A well-formed sequence has the effect of its elements one after another.
  lemma {:induction false} IesOfList(sc: Scan, ies: seq<Ie>)
    requires Fit(ies)
    ensures ApplyIes(sc, EncodeIes(ies)) == FoldIes(sc, ies)
    decreases |ies|
  {
    hide ApplyIe;
    if ies != [] {
      var s := EncodeIes(ies);
      var n := |ies[0].payload|;
      assert s[0] == ies[0].tag && s[1] == n;
      assert s[2..2 + n] == ies[0].payload && s[2 + n..] == EncodeIes(ies[1..]);
      IesOfList(ApplyIe(sc, ies[0].tag, ies[0].payload), ies[1..]);
    }
  }
}

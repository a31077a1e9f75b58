/** Key data elements (section 11.6.2, Figure 11-30 and Table 11-6 of IEEE
    802.11-2012): how fetch_gtk walks them to the group key, and that it finds the
    key of every well-formed list that has one. */
module Kde {
  import opened Bytes

  const KDE_MAGIC: byte := 0xdd
  const GTK_TYPE: seq<byte> := [0x00, 0x0f, 0xac, 0x01]
  const KDE_HEADER := 6          // sizeof(struct kde)
  const GTK_MIN := 24            // header, flags, pad and the shortest key

  datatype GtkResult = NoGtk | Gtk(index: nat, key: seq<byte>)

  // A complete element that fetch_gtk takes for a group key.
  predicate IsGtkElement(e: seq<byte>) {
    |e| >= GTK_MIN && e[0] == KDE_MAGIC && e[2..6] == GTK_TYPE
  }

  function GtkIndex(flags: byte): (i: nat) { (flags & 3) as int }

  // The group key element fetch_gtk settles on in key data s. An element with key
  // index 0 ends the search; one that does not fit ends it too, and so does a rest
  // that has no byte after a header.
  function FindGtk(s: seq<byte>): GtkResult
    decreases |s|
  {
    if |s| <= KDE_HEADER then NoGtk
    else
      var size := 2 + s[1] as int;
      if size > |s| then NoGtk
      else if !IsGtkElement(s[..size]) then FindGtk(s[size..])
      else if GtkIndex(s[6]) == 0 then NoGtk
      else Gtk(GtkIndex(s[6]), s[8..size])
  }

  // fetch_gtk (wsupp_eapol.c:206-240) without the final store.
  method FetchGtk(buf: array<byte>, off: nat, len: nat) returns (r: GtkResult)
    requires off + len <= buf.Length
    ensures r == FindGtk(buf[off..off + len])
  {
    hide GtkIndex, FindGtk, IsGtkElement;
    var ptr, end := off, off + len;
    while ptr + KDE_HEADER < end
      invariant off <= ptr <= end
      invariant FindGtk(buf[ptr..end]) == FindGtk(buf[off..end])
    {
      var kd := ptr;
      ghost var s := buf[ptr..end];
      FindStep(s);
      var kdlen := 2 + buf[kd + 1] as int;
      ptr := ptr + kdlen;
      if ptr > end { return NoGtk; }
      assert s[..kdlen] == buf[kd..ptr] && s[kdlen..] == buf[ptr..end];
      var isGtk := CheckElement(buf, kd, kdlen);
      if isGtk {
        var index := GtkIndex(buf[kd + 6]);
        if index == 0 { return NoGtk; }
        assert s[8..kdlen] == buf[kd + 8..ptr];
        return Gtk(index, buf[kd + 8..ptr]);
      }
    }
    FindNone(buf[ptr..end]);
    r := NoGtk;
  }

  lemma FindNone(s: seq<byte>)
    requires |s| <= KDE_HEADER
    ensures FindGtk(s) == NoGtk
  {
  }

  lemma FindStep(s: seq<byte>)
    requires |s| > KDE_HEADER
    ensures var size := 2 + s[1] as int;
      (size > |s| ==> FindGtk(s) == NoGtk) &&
      (size <= |s| && !IsGtkElement(s[..size]) ==> FindGtk(s) == FindGtk(s[size..])) &&
      (size <= |s| && IsGtkElement(s[..size]) ==>
        size >= GTK_MIN && FindGtk(s) == if GtkIndex(s[6]) == 0 then NoGtk else Gtk(GtkIndex(s[6]), s[8..size]))
  {
  }

  // The three tests of the loop (wsupp_eapol.c:222-229).
  method CheckElement(buf: array<byte>, kd: nat, kdlen: nat) returns (ok: bool)
    requires 2 <= kdlen && kd + kdlen <= buf.Length && kd + KDE_HEADER < buf.Length
    ensures ok <==> IsGtkElement(buf[kd..kd + kdlen])
    ensures ok ==> kdlen >= GTK_MIN
  {
    ghost var e := buf[kd..kd + kdlen];
    var datalen := kdlen - KDE_HEADER;
    if buf[kd] != KDE_MAGIC { return false; }
    if kdlen >= GTK_MIN {
      forall k | 0 <= k < 4
        ensures e[2..6][k] == buf[kd + 2..kd + 6][k]
      {
      }
    }
    if buf[kd + 2..kd + 6] != GTK_TYPE { return false; }
    return datalen >= 2 + 16;
  }

  // ---- Well-formed key data ----

  // One element: its magic byte and everything its length byte counts.
  datatype Element = Element(magic: byte, body: seq<byte>) {
    ghost predicate Fits() { |body| < 256 }

    ghost function Bytes(): seq<byte>
      requires Fits()
    {
      [magic, ToByte(|body|)] + body
    }
  }

  ghost function EncodeAll(es: seq<Element>): seq<byte>
    requires forall e <- es :: e.Fits()
  {
    if es == [] then [] else es[0].Bytes() + EncodeAll(es[1..])
  }

  // The group key element for a key: flags carry the index in their low two bits.
  ghost function GtkElement(flags: byte, pad: byte, key: seq<byte>): Element {
    Element(KDE_MAGIC, GTK_TYPE + [flags, pad] + key)
  }

  // In front of other data, an element that is no group key is skipped.
  lemma SkipElement(e: Element, rest: seq<byte>)
    requires e.Fits() && !IsGtkElement(e.Bytes()) && |rest| > KDE_HEADER
    ensures FindGtk(e.Bytes() + rest) == FindGtk(rest)
  {
    var s := e.Bytes() + rest;
    assert s[1] as int == |e.body|;
    assert s[..2 + |e.body|] == e.Bytes() && s[2 + |e.body|..] == rest;
  }

  lemma FindFirst(flags: byte, pad: byte, key: seq<byte>, rest: seq<byte>)
    requires GtkIndex(flags) != 0 && 16 <= |key| < 250
    ensures GtkElement(flags, pad, key).Fits()
    ensures FindGtk(GtkElement(flags, pad, key).Bytes() + rest) == Gtk(GtkIndex(flags), key)
  {
    hide GtkIndex;
    var e := GtkElement(flags, pad, key);
    var s := e.Bytes() + rest;
    var size := 2 + |e.body|;
    assert s[1] as int == |e.body|;
    assert s[..size] == e.Bytes();
    assert e.Bytes()[2..6] == GTK_TYPE;
    assert s[6] == flags && s[8..size] == key;
  }

  // Whatever elements come first, and whatever follows the group key element, its
  // index and key are found.
  lemma {:induction false} FindInList(before: seq<Element>, flags: byte, pad: byte, key: seq<byte>, rest: seq<byte>)
    requires forall e <- before :: e.Fits() && !IsGtkElement(e.Bytes())
    requires GtkIndex(flags) != 0 && 16 <= |key| < 250
    ensures GtkElement(flags, pad, key).Fits()
    ensures FindGtk(EncodeAll(before) + GtkElement(flags, pad, key).Bytes() + rest) == Gtk(GtkIndex(flags), key)
    decreases |before|
  {
    hide FindGtk, IsGtkElement, GtkIndex;
    FindFirst(flags, pad, key, rest);
    var tail := GtkElement(flags, pad, key).Bytes() + rest;
    assert EncodeAll(before) + GtkElement(flags, pad, key).Bytes() + rest == EncodeAll(before) + tail;
    if before == [] {
      assert EncodeAll(before) + tail == tail;
    } else {
      FindInList(before[1..], flags, pad, key, rest);
      var more := EncodeAll(before[1..]) + tail;
      assert EncodeAll(before[1..]) + GtkElement(flags, pad, key).Bytes() + rest == more;
      assert EncodeAll(before) + tail == before[0].Bytes() + more;
      SkipElement(before[0], more);
    }
  }
}

/** Netlink attributes (netlink/attr_nst.c, netlink/attr_buf.c, netlink/pack.c): the
    validator of a nest, the walk it licenses, and the writer whose lists both accept. */
module NlAttr {
  import opened Octets
  import opened Wrappers
  import U = UcFormat

  type Attr = U.Attr

  predicate Aligned(n: nat) { n % 4 == 0 }

  lemma AlignedSum(a: nat, b: nat)
    requires Aligned(a) && Aligned(b)
    ensures Aligned(a + b)
  {
  }

  // extend_to_4bytes
  function Extend(n: nat): (m: nat)
    ensures Aligned(m) && n <= m < n + 4
  {
    n + Pad(n)
  }

  // The same in a uint16_t.
  function Skip(n: nat): nat { Extend(n) % 0x10000 }

  lemma SkipIs(n: nat)
    requires n < 0x10000
    ensures Skip(n) == if n > 0xFFFC then 0 else Extend(n)
  {
  }

  // ---- nl_check_nest (netlink/attr_nst.c:11-29) ----

  // The loop from p on; skip is 16 bits wide.
  predicate CheckFrom(s: seq<Octet>, p: nat)
    decreases |s| - p
  {
    if p >= |s| then p == |s|
    else if p + 2 > |s| then false
    else
      var skip := Skip(Read2(s, p));
      skip != 0 && p + skip <= |s| && CheckFrom(s, p + skip)
  }

  predicate CheckNest(s: seq<Octet>) { |s| > 4 && CheckFrom(s, 0) }

  // The loop comes to a lone byte at the end.
  predicate LoneByte(s: seq<Octet>, p: nat)
    decreases |s| - p
  {
    p + 1 == |s| || (p + 2 <= |s| && Skip(Read2(s, p)) != 0 && LoneByte(s, p + Skip(Read2(s, p))))
  }

  // The region is len bytes of buf at off; at a lone byte the length field reaches one byte
  // behind it, to no effect.
  method NlCheckNest(buf: array<Octet>, off: nat, len: nat) returns (ok: bool)
    requires off + len <= buf.Length && (len > 4 && LoneByte(buf[off..off + len], 0) ==> off + len < buf.Length)
    ensures ok <==> CheckNest(buf[off..off + len])
  {
    hide CheckFrom, LoneByte, Skip, Read2;
    ghost var s := buf[off..off + len];
    if len <= 4 { return false; }
    var p := 0;
    while p < len
      invariant 0 <= p && (CheckFrom(s, p) <==> CheckFrom(s, 0)) && (LoneByte(s, p) ==> LoneByte(s, 0))
      decreases len - p
    {
      CheckTurn(s, p);
      var skip := SkipAt(buf, off, len, p);
      if skip == 0 { break; }
      p := p + skip;
      CheckEnds(s, p);
    }
    CheckEnds(s, p);
    ok := p == len;
  }

  method SkipAt(buf: array<Octet>, off: nat, len: nat, p: nat) returns (skip: nat)
    requires off + len <= buf.Length && p < len && off + p + 1 < buf.Length
    ensures p + 2 <= len ==> skip == Skip(Read2(buf[off..off + len], p))
    ensures skip == 0 || skip >= 4
  {
    var slen := buf[off + p] as int + buf[off + p + 1] as int * 0x100;
    skip := (slen + (4 - slen % 4) % 4) % 0x10000;
  }

  // One turn of the loop.
  lemma CheckTurn(s: seq<Octet>, p: nat)
    requires p < |s|
    ensures p + 1 == |s| ==> !CheckFrom(s, p) && LoneByte(s, p)
    ensures p + 2 <= |s| ==>
              var skip := Skip(Read2(s, p));
              && (CheckFrom(s, p) <==> skip != 0 && CheckFrom(s, p + skip))
              && (skip != 0 && LoneByte(s, p + skip) ==> LoneByte(s, p))
  {
    if p + 2 <= |s| && p + Skip(Read2(s, p)) > |s| { CheckEnds(s, p + Skip(Read2(s, p))); }
  }

  lemma CheckEnds(s: seq<Octet>, p: nat)
    ensures p >= |s| ==> (CheckFrom(s, p) <==> p == |s|) && !LoneByte(s, p)
  {
  }

  // ---- The walk (netlink/attr_buf.c) ----

  // s is a region of len bytes and the padding behind it, which headers may reach into.
  predicate Padded(s: seq<Octet>, len: nat) { |s| == Extend(len) }

  lemma HeaderInside(n: nat, q: nat)
    requires Aligned(n) && Aligned(q) && q < n
    ensures q + 4 <= n
  {
  }

  // nl_attr_0_in finds an attribute.
  predicate HasFirst(s: seq<Octet>, len: nat)
    requires len <= |s|
  {
    len >= 4 && Read2(s, 0) <= len
  }

  // nl_attr_n_in, which looks only at the current attribute; |s| for NULL.
  function Next(s: seq<Octet>, len: nat, p: nat): (q: nat)
    requires Padded(s, len) && p < len && Aligned(p)
    ensures q == |s| || (p < q < len && Aligned(q))
  {
    HeaderInside(|s|, p);
    var n := Extend(Read2(s, p));
    AlignedSum(p, n);
    if Read2(s, p) < 4 || p + n >= len then |s| else p + n
  }

  // The attributes visited from p on.
  function Visits(s: seq<Octet>, len: nat, p: nat): (ps: seq<nat>)
    requires Padded(s, len) && p < len && Aligned(p)
    ensures forall k :: 0 <= k < |ps| ==> p <= ps[k] < len && ps[k] + 4 <= |s| && Aligned(ps[k])
    decreases |s| - p
  {
    var q := Next(s, len, p);
    [p] + if q == |s| then [] else Visits(s, len, q)
  }

  function Walk(s: seq<Octet>, len: nat): (ps: seq<nat>)
    requires Padded(s, len)
    ensures forall k :: 0 <= k < |ps| ==> ps[k] + 4 <= |s| && Aligned(ps[k])
  {
    if HasFirst(s, len) then Visits(s, len, 0) else []
  }

  // nl_attr_k_in, the first visited with the type; |s| for NULL.
  function First(s: seq<Octet>, ps: seq<nat>, type_: nat): (p: nat)
    requires forall k :: 0 <= k < |ps| ==> ps[k] + 4 <= |s|
    ensures p == |s| || p in ps
    ensures p != |s| ==> Read2(s, p + 2) == type_
  {
    if ps == [] then |s| else if Read2(s, ps[0] + 2) == type_ then ps[0] else First(s, ps[1..], type_)
  }

  method NlAttr0In(buf: array<Octet>, off: nat, len: nat) returns (r: int)
    requires off + len <= buf.Length
    ensures r == if HasFirst(buf[off..off + len], len) then 0 else -1
  {
    if len < 4 { return -1; }
    if buf[off] as int + buf[off + 1] as int * 0x100 > len { return -1; }
    r := 0;
  }

  method NlAttrNIn(buf: array<Octet>, off: nat, len: nat, curr: nat) returns (r: int)
    requires off + Extend(len) <= buf.Length && curr < len && Aligned(curr)
    ensures var s := buf[off..off + Extend(len)]; var q := Next(s, len, curr); r == if q == |s| then -1 else q
  {
    var clen := buf[off + curr] as int + buf[off + curr + 1] as int * 0x100;
    assert clen == Read2(buf[off..off + Extend(len)], curr);
    if clen < 4 { return -1; }
    var next := curr + clen + (4 - clen % 4) % 4;
    if next >= len { return -1; }
    r := next;
  }

  method NlAttrKIn(buf: array<Octet>, off: nat, len: nat, type_: nat) returns (r: int)
    requires off + Extend(len) <= buf.Length
    ensures var s := buf[off..off + Extend(len)];
      var p := First(s, Walk(s, len), type_); r == if p == |s| then -1 else p
  {
    hide HasFirst, Walk, Visits, First, Aligned, Next, Read2;
    ghost var s := buf[off..off + Extend(len)];
    r := NlAttr0In(buf, off, len);
    SameFirst(buf[off..off + len], s);
    WalkIs(s, len);
    while r >= 0
      invariant -1 <= r && (r >= 0 ==> r < len && Aligned(r))
      invariant First(s, Walk(s, len), type_) == if r < 0 then |s| else First(s, Visits(s, len, r), type_)
      decreases if r >= 0 then len - r else 0
    {
      var t := TypeAt(buf, off, len, r);
      VisitsOne(s, len, r, type_);
      if t == type_ { return; }
      r := NlAttrNIn(buf, off, len, r);
    }
  }

  method TypeAt(buf: array<Octet>, off: nat, len: nat, p: nat) returns (t: nat)
    requires off + Extend(len) <= buf.Length && p < len && Aligned(p)
    ensures p + 4 <= Extend(len) && t == Read2(buf[off..off + Extend(len)], p + 2)
  {
    t := buf[off + p + 2] as int + buf[off + p + 3] as int * 0x100;
  }

  lemma SameFirst(s: seq<Octet>, t: seq<Octet>)
    requires s <= t
    ensures HasFirst(s, |s|) <==> HasFirst(t, |s|)
  {
  }

  lemma WalkIs(s: seq<Octet>, len: nat)
    requires Padded(s, len)
    ensures Aligned(0) && (HasFirst(s, len) ==> len >= 4)
    ensures forall t: nat :: First(s, Walk(s, len), t) == if HasFirst(s, len) then First(s, Visits(s, len, 0), t) else |s|
  {
    hide Visits;
  }

  lemma VisitsOne(s: seq<Octet>, len: nat, p: nat, type_: nat)
    requires Padded(s, len) && p < len && Aligned(p)
    ensures p + 4 <= |s|
    ensures First(s, Visits(s, len, p), type_)
         == if Read2(s, p + 2) == type_ then p
            else if Next(s, len, p) == |s| then |s| else First(s, Visits(s, len, Next(s, len, p)), type_)
  {
    hide Next, Read2, Aligned;
    HeaderInside(|s|, p);
    var q := Next(s, len, p);
    if q != |s| {
      assert Visits(s, len, p)[1..] == Visits(s, len, q);
    } else {
      assert Visits(s, len, p)[1..] == [];
    }
  }

  // ---- What the validator licenses ----

  ghost predicate WhollyInside(s: seq<Octet>, p: nat) { Aligned(p) && p + 4 <= |s| && p + Read2(s, p) <= |s| }

  lemma {:induction false} CheckedIsAligned(s: seq<Octet>, p: nat)
    requires CheckFrom(s, p) && Aligned(p)
    ensures Aligned(|s|)
    decreases |s| - p
  {
    hide Aligned, Skip, Read2;
    if p < |s| {
      var n := Read2(s, p);
      SkipIs(n);
      AlignedSum(p, Skip(n));
      CheckedIsAligned(s, p + Skip(n));
    }
  }

  lemma AlignedIsPadded(s: seq<Octet>)
    ensures Aligned(|s|) ==> Padded(s, |s|)
  {
  }

  lemma {:induction false} VisitsInside(s: seq<Octet>, p: nat)
    requires CheckFrom(s, p) && Aligned(|s|) && p + 4 <= |s| && Aligned(p)
    ensures forall k :: 0 <= k < |Visits(s, |s|, p)| ==> WhollyInside(s, Visits(s, |s|, p)[k])
    decreases |s| - p
  {
    hide Aligned, Skip, Extend, Read2;
    AlignedIsPadded(s);
    var q := Next(s, |s|, p);
    SkipIs(Read2(s, p));
    assert WhollyInside(s, p);
    if q != |s| {
      HeaderInside(|s|, q);
      VisitsInside(s, q);
      assert Visits(s, |s|, p) == [p] + Visits(s, |s|, q);
    }
  }

  // In a buffer nl_check_nest accepts, every attribute the walk visits is 4-aligned and
  // lies wholly inside, although the walk never looks at the next attribute's length.
  lemma CheckLicensesWalk(s: seq<Octet>)
    requires CheckNest(s)
    ensures Aligned(|s|) && HasFirst(s, |s|)
    ensures forall k :: 0 <= k < |Walk(s, |s|)| ==> WhollyInside(s, Walk(s, |s|)[k])
  {
    hide CheckFrom, Visits;
    CheckedIsAligned(s, 0);
    FirstIsInside(s);
    VisitsInside(s, 0);
  }

  lemma FirstIsInside(s: seq<Octet>)
    requires CheckNest(s) && Aligned(|s|)
    ensures HasFirst(s, |s|)
  {
  }

  // ---- Packed lists ----

  // s begins with the attribute a, padded with arbitrary bytes.
  ghost predicate Begins(s: seq<Octet>, a: Attr) {
    var n := 4 + |a.payload|;
    Extend(n) <= |s| && s[..4] == U.Header(a.key, n) && s[4..n] == a.payload
  }

  // s is the attributes l one after another.
  ghost predicate Packed(s: seq<Octet>, l: seq<Attr>)
    decreases |l|
  {
    if l == [] then s == [] else Begins(s, l[0]) && Packed(s[Extend(4 + |l[0].payload|)..], l[1..])
  }

  // The longest attribute nl_check_nest gets past: its skip must not wrap.
  predicate Passable(a: Attr) { 4 + |a.payload| <= 0xFFFC }

  ghost predicate AllPassable(l: seq<Attr>) { forall k :: 0 <= k < |l| ==> Passable(l[k]) }

  lemma PackedHead(s: seq<Octet>, p: nat, l: seq<Attr>)
    requires p <= |s| && l != [] && Packed(s[p..], l) && U.Small(l[0])
    ensures var n := 4 + |l[0].payload|; var q := p + Extend(n);
      && p + 4 <= q <= |s| && Read2(s, p) == n && Read2(s, p + 2) == l[0].key
      && s[p + 4..p + n] == l[0].payload && Packed(s[q..], l[1..])
  {
    hide Le2, Read2;
    var t := s[p..];
    var n := 4 + |l[0].payload|;
    var q := p + Extend(n);
    assert s[q..] == t[Extend(n)..];
    assert s[p + 4..p + n] == t[4..n];
    assert s[p..p + 2] == t[..4][..2] && s[p + 2..p + 4] == t[..4][2..4];
    ReadsBack2(s, p, n);
    ReadsBack2(s, p + 2, l[0].key);
  }

  // The loop of nl_check_nest over a packed list: accepted exactly when no attribute is
  // too long to step over.
  lemma {:induction false} CheckPacked(s: seq<Octet>, p: nat, l: seq<Attr>)
    requires p <= |s| && Packed(s[p..], l) && U.AllSmall(l)
    ensures CheckFrom(s, p) <==> AllPassable(l)
    decreases |l|
  {
    hide Read2, Packed, Extend, U.Small;
    if l == [] {
      PackedNone(s[p..]);
    } else {
      assert U.Small(l[0]);
      PackedHead(s, p, l);
      var q := p + Extend(4 + |l[0].payload|);
      CheckPacked(s, q, l[1..]);
      SkipWraps(l[0]);
      assert AllPassable(l) <==> Passable(l[0]) && AllPassable(l[1..]) by { AllOfTail(l); }
    }
  }

  lemma PackedNone(s: seq<Octet>)
    ensures Packed(s, []) <==> s == []
  {
  }

  lemma AllOfTail(l: seq<Attr>)
    requires l != []
    ensures AllPassable(l) <==> Passable(l[0]) && AllPassable(l[1..])
  {
    hide Passable;
    if Passable(l[0]) && AllPassable(l[1..]) {
      assert forall k :: 0 < k < |l| ==> l[k] == l[1..][k - 1];
    }
    if AllPassable(l) {
      assert forall k :: 0 <= k < |l[1..]| ==> l[1..][k] == l[k + 1];
    }
  }

  lemma SkipWraps(a: Attr)
    requires U.Small(a)
    ensures var n := 4 + |a.payload|;
      if Passable(a) then Extend(n) % 0x10000 == Extend(n) > 0 else Extend(n) % 0x10000 == 0
  {
  }

  // The attributes the walk visits.
  function AttrAt(s: seq<Octet>, p: nat): Attr
    requires p + 4 <= |s| && p + Read2(s, p) <= |s|
  {
    U.Attr(Read2(s, p + 2), if Read2(s, p) < 4 then [] else s[p + 4..p + Read2(s, p)])
  }

  lemma {:induction false} WalkPacked(s: seq<Octet>, p: nat, l: seq<Attr>)
    requires Aligned(|s|) && Aligned(p) && p <= |s| && l != [] && Packed(s[p..], l) && U.AllSmall(l)
    ensures p + 4 <= |s| && |Visits(s, |s|, p)| == |l|
    ensures forall k :: 0 <= k < |l| ==> WhollyInside(s, Visits(s, |s|, p)[k]) && AttrAt(s, Visits(s, |s|, p)[k]) == l[k]
    decreases |l|
  {
    hide Read2, Packed, Extend, U.Small;
    assert U.Small(l[0]);
    PackedHead(s, p, l);
    var q := p + Extend(4 + |l[0].payload|);
    if |l| == 1 {
      assert l[1..] == [];
      PackedNone(s[q..]);
    } else {
      WalkPacked(s, q, l[1..]);
    }
  }

  lemma {:induction false} PackedAligned(s: seq<Octet>, l: seq<Attr>)
    requires Packed(s, l)
    ensures Aligned(|s|)
    decreases |l|
  {
    hide Aligned, Extend, U.Header;
    if l == [] {
      assert Aligned(0) by { ZeroAligned(); }
    } else {
      var m := Extend(4 + |l[0].payload|);
      PackedAligned(s[m..], l[1..]);
      AlignedSum(m, |s[m..]|);
    }
  }

  lemma ZeroAligned()
    ensures Aligned(0)
  {
  }

  // A list packed by the writer is accepted as a nest exactly when there is more than a
  // bare header and no attribute too long to step over; the walk then visits its
  // attributes one by one, and a search finds the first of each type.
  lemma PackedIsAccepted(s: seq<Octet>, l: seq<Attr>)
    requires Packed(s, l) && U.AllSmall(l) && l != []
    ensures CheckNest(s) <==> |s| > 4 && AllPassable(l)
    ensures Aligned(|s|) && |Walk(s, |s|)| == |l|
    ensures forall k :: 0 <= k < |l| ==> WhollyInside(s, Walk(s, |s|)[k]) && AttrAt(s, Walk(s, |s|)[k]) == l[k]
    ensures forall t: nat :: var p := First(s, Walk(s, |s|), t);
      if p == |s| then U.Lookup(l, t) == None else WhollyInside(s, p) && U.Lookup(l, t) == Some(AttrAt(s, p))
  {
    hide Packed, CheckFrom, AllPassable, Visits, U.AllSmall, AttrAt, Read2;
    PackedAligned(s, l);
    assert s[0..] == s;
    CheckPacked(s, 0, l);
    WalkPacked(s, 0, l);
    assert U.Small(l[0]) by { FirstSmall(l); }
    PackedHead(s, 0, l);
    forall t: nat
      ensures var p := First(s, Walk(s, |s|), t);
        if p == |s| then U.Lookup(l, t) == None else WhollyInside(s, p) && U.Lookup(l, t) == Some(AttrAt(s, p))
    {
      FirstIsLookup(s, Walk(s, |s|), l, t);
    }
  }

  lemma FirstSmall(l: seq<Attr>)
    requires l != [] && U.AllSmall(l)
    ensures U.Small(l[0])
  {
  }

  lemma {:induction false} FirstIsLookup(s: seq<Octet>, ps: seq<nat>, l: seq<Attr>, t: nat)
    requires |ps| == |l| && forall k :: 0 <= k < |ps| ==> ps[k] + 4 <= |s|
    requires forall k :: 0 <= k < |l| ==> WhollyInside(s, ps[k]) && AttrAt(s, ps[k]) == l[k]
    ensures var p := First(s, ps, t);
      if p == |s| then U.Lookup(l, t) == None else WhollyInside(s, p) && U.Lookup(l, t) == Some(AttrAt(s, p))
    decreases |ps|
  {
    hide Read2;
    if ps != [] {
      FirstIsLookup(s, ps[1..], l[1..], t);
    }
  }
}

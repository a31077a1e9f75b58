/** The control protocol's messages (nlusctl/put.c, nlusctl/get.c) as values: what a
    series of puts into a bounded buffer leaves there, and what the reader finds. */
module UcFormat {
  import opened Octets
  import opened Wrappers
  import opened Seqs

  datatype Attr = Attr(key: nat, payload: seq<Octet>)

  // An attribute with a payload, or a nest of such attributes.
  datatype Item = Bin(attr: Attr) | Nest(key: nat, subs: seq<Attr>)

  // Both fields of the header are 16 bits wide.
  function Header(key: nat, total: nat): (s: seq<Octet>)
    ensures |s| == 4
  {
    Le2(total % 0x10000) + Le2(key % 0x10000)
  }

  function EncodeAttr(a: Attr): (s: seq<Octet>)
    ensures |s| == 4 + |a.payload| + Pad(4 + |a.payload|)
  {
    Header(a.key, 4 + |a.payload|) + a.payload + Fill(Pad(4 + |a.payload|), 0)
  }

  function EncodeAttrs(l: seq<Attr>): seq<Octet>
    decreases |l|
  {
    if l == [] then [] else EncodeAttr(l[0]) + EncodeAttrs(l[1..])
  }

  lemma {:induction false} Aligned(l: seq<Attr>)
    ensures |EncodeAttrs(l)| % 4 == 0
    decreases |l|
  {
    if l != [] {
      AlignedOne(l[0]);
      Aligned(l[1..]);
      Fours(|EncodeAttr(l[0])|, |EncodeAttrs(l[1..])|);
    }
  }

  lemma AlignedOne(a: Attr)
    ensures |EncodeAttr(a)| % 4 == 0
  {
  }

  lemma Fours(a: nat, b: nat)
    requires a % 4 == 0 && b % 4 == 0
    ensures (a + b) % 4 == 0
  {
  }

  // A nest is an attribute whose payload is a list of attributes.
  function Flat(i: Item): Attr {
    match i
    case Bin(a) => a
    case Nest(key, subs) => Attr(key, EncodeAttrs(subs))
  }

  function Flats(l: seq<Item>): (r: seq<Attr>)
    ensures |r| == |l|
  {
    if l == [] then [] else [Flat(l[0])] + Flats(l[1..])
  }

  function EncodeItems(l: seq<Item>): seq<Octet> { EncodeAttrs(Flats(l)) }

  // What the two fields can hold.
  predicate Small(a: Attr) { a.key < 0x10000 && 4 + |a.payload| < 0x10000 }
  ghost predicate AllSmall(l: seq<Attr>) { forall k :: 0 <= k < |l| ==> Small(l[k]) }

  ghost predicate ItemsSmall(l: seq<Item>) {
    forall k :: 0 <= k < |l| ==> Small(Flat(l[k])) && (l[k].Nest? ==> AllSmall(l[k].subs))
  }

  // ---- Reading ----

  // An attribute's header and declared length are inside s.
  predicate Inside(s: seq<Octet>, p: nat) { p + 4 <= |s| && p + Read2(s, p) <= |s| }

  function AttrAt(s: seq<Octet>, p: nat): Attr
    requires Inside(s, p)
  {
    var len := Read2(s, p);
    Attr(Read2(s, p + 2), if len < 4 then [] else s[p + 4..p + len])
  }

  // uc_get_n_in (nlusctl/get.c:50-75) from the attribute at p; |s| when there is no next.
  function Next(s: seq<Octet>, p: nat): (q: nat)
    requires Inside(s, p)
    ensures q == |s| || (p < q && Inside(s, q))
  {
    var len := Read2(s, p);
    var q := p + len + Pad(len);
    if len == 0 || !Inside(s, q) then |s| else q
  }

  // The attributes the reader visits from the one at p on.
  function AttrsFrom(s: seq<Octet>, p: nat): (l: seq<Attr>)
    requires Inside(s, p)
    ensures |l| > 0 && l[0] == AttrAt(s, p)
    decreases |s| - p
  {
    var q := Next(s, p);
    [AttrAt(s, p)] + if q == |s| then [] else AttrsFrom(s, q)
  }

  function Attrs(s: seq<Octet>): seq<Attr> { if Inside(s, 0) then AttrsFrom(s, 0) else [] }

  // The first attribute with a key.
  function Lookup(l: seq<Attr>, key: nat): Option<Attr> {
    if l == [] then None else if l[0].key == key then Some(l[0]) else Lookup(l[1..], key)
  }

  // uc_get and uc_sub (nlusctl/get.c:97-117); |s| for NULL.
  function FindFrom(s: seq<Octet>, p: nat, key: nat): (q: nat)
    requires Inside(s, p)
    ensures q == |s| || Inside(s, q)
    decreases |s| - p
  {
    if AttrAt(s, p).key == key then p
    else
      var q := Next(s, p);
      if q == |s| then q else FindFrom(s, q, key)
  }

  function Find(s: seq<Octet>, key: nat): (q: nat)
    ensures q == |s| || Inside(s, q)
  {
    if Inside(s, 0) then FindFrom(s, 0, key) else |s|
  }

  function Found(s: seq<Octet>, p: nat): Option<Attr>
    requires p == |s| || Inside(s, p)
  {
    if p == |s| then None else Some(AttrAt(s, p))
  }

  lemma {:induction false} FindFromIsLookup(s: seq<Octet>, p: nat, key: nat)
    requires Inside(s, p)
    ensures Found(s, FindFrom(s, p, key)) == Lookup(AttrsFrom(s, p), key)
    decreases |s| - p
  {
    hide Inside, AttrAt;
    var q := Next(s, p);
    InsideIsBefore(s, p);
    if AttrAt(s, p).key != key && q != |s| {
      FindFromIsLookup(s, q, key);
      assert AttrsFrom(s, p)[1..] == AttrsFrom(s, q);
    }
  }

  lemma InsideIsBefore(s: seq<Octet>, p: nat)
    requires Inside(s, p)
    ensures p < |s|
  {
  }

  lemma EndIsOutside(s: seq<Octet>)
    ensures !Inside(s, |s|)
  {
  }

  lemma FindIsLookup(s: seq<Octet>, key: nat)
    ensures Found(s, Find(s, key)) == Lookup(Attrs(s), key)
  {
    hide AttrAt, FindFrom, AttrsFrom;
    if Inside(s, 0) {
      FindFromIsLookup(s, 0, key);
    }
  }

  // ---- Round trips ----

  lemma EncodedParts(a: Attr)
    requires Small(a)
    ensures var e, n := EncodeAttr(a), 4 + |a.payload|;
      e[0..2] == Le2(n) && e[2..4] == Le2(a.key) && e[4..n] == a.payload
  {
    hide Le2;
    var e, h := EncodeAttr(a), Header(a.key, 4 + |a.payload|);
    assert e[0..4] == h && h[0..2] == Le2(4 + |a.payload|) && h[2..4] == Le2(a.key);
    SliceOfSlice(e, 0, 4, 0, 2);
    SliceOfSlice(e, 0, 4, 2, 4);
  }

  // One attribute at p, followed by anything, reads back.
  lemma ReadsAttr(s: seq<Octet>, p: nat, a: Attr)
    requires Small(a) && p + |EncodeAttr(a)| <= |s| && s[p..p + |EncodeAttr(a)|] == EncodeAttr(a)
    ensures Inside(s, p) && AttrAt(s, p) == a
    ensures var q := p + |EncodeAttr(a)|; Next(s, p) == if Inside(s, q) then q else |s|
  {
    hide Le2, Read2;
    var e := EncodeAttr(a);
    var n := 4 + |a.payload|;
    SliceOfSlice(s, p, p + |e|, 0, 2);
    SliceOfSlice(s, p, p + |e|, 2, 4);
    SliceOfSlice(s, p, p + |e|, 4, n);
    EncodedParts(a);
    ReadsBack2(s, p, n);
    ReadsBack2(s, p + 2, a.key);
  }

  lemma {:induction false} ReadsList(s: seq<Octet>, p: nat, l: seq<Attr>)
    requires l != [] && AllSmall(l) && p <= |s| && s[p..] == EncodeAttrs(l)
    ensures Inside(s, p) && AttrsFrom(s, p) == l
    decreases |l|
  {
    hide EncodeAttr, AttrAt, Next, Pad, Inside;
    var e, rest := EncodeAttr(l[0]), EncodeAttrs(l[1..]);
    var q := p + |e|;
    assert s[p..] == e + rest;
    assert s[p..q] == s[p..][..q - p] && s[q..] == s[p..][q - p..];
    ReadsAttr(s, p, l[0]);
    if l[1..] == [] {
      assert q == |s|;
      EndIsOutside(s);
    } else {
      ReadsList(s, q, l[1..]);
      InsideIsBefore(s, q);
    }
  }

  // What was written reads back, in order.
  lemma AttrsReadBack(l: seq<Attr>)
    requires AllSmall(l)
    ensures Attrs(EncodeAttrs(l)) == l
  {
    hide EncodeAttrs, AttrsFrom;
    if l == [] {
      EncodeNone();
    } else {
      ReadsList(EncodeAttrs(l), 0, l);
    }
  }

  lemma EncodeNone()
    ensures EncodeAttrs([]) == []
  {
  }

  lemma {:induction false} FlatsAt(l: seq<Item>, k: nat)
    requires k < |l|
    ensures Flats(l)[k] == Flat(l[k])
  {
    hide Flat;
    if k > 0 {
      FlatsAt(l[1..], k - 1);
    }
  }

  // A message of items reads back as the items, and the payload of a nest as its members;
  // so a lookup gives the first attribute with the key.
  lemma ItemsReadBack(l: seq<Item>)
    requires ItemsSmall(l)
    ensures Attrs(EncodeItems(l)) == Flats(l)
    ensures forall k :: 0 <= k < |l| && l[k].Nest? ==> Attrs(Flats(l)[k].payload) == l[k].subs
    ensures forall key: nat :: Found(EncodeItems(l), Find(EncodeItems(l), key)) == Lookup(Flats(l), key)
  {
    hide Attrs, EncodeAttrs, Find, Found, Lookup, Flats, Small;
    forall k | 0 <= k < |l|
      ensures Small(Flats(l)[k]) && (l[k].Nest? ==> Attrs(Flats(l)[k].payload) == l[k].subs)
    {
      FlatsAt(l, k);
      if l[k].Nest? { AttrsReadBack(l[k].subs); }
    }
    AttrsReadBack(Flats(l));
    forall key: nat
      ensures Found(EncodeItems(l), Find(EncodeItems(l), key)) == Lookup(Flats(l), key)
    {
      FindIsLookup(EncodeItems(l), key);
    }
  }

  // ---- Writing ----

  // The bytes from brk to ptr, the size of the buffer, and uc->over.
  datatype Out = Out(bytes: seq<Octet>, cap: nat, over: bool)

  // uc_alloc and uc_put_bin (nlusctl/put.c:6-24, 67-89)
  function PutBin(o: Out, a: Attr): Out {
    if o.over || |o.bytes| + |EncodeAttr(a)| > o.cap then o.(over := true)
    else o.(bytes := o.bytes + EncodeAttr(a))
  }

  // uc_end_nest of the nest opened at at
  function EndNest(o: Out, at: nat): Out
    requires at + 4 <= |o.bytes|
  {
    o.(bytes := o.bytes[..at] + Le2((|o.bytes| - at) % 0x10000) + o.bytes[at + 2..])
  }

  function PutAttrs(o: Out, l: seq<Attr>): (r: Out)
    ensures o.bytes <= r.bytes
    decreases |l|
  {
    if l == [] then o else PutAttrs(PutBin(o, l[0]), l[1..])
  }

  function PutItem(o: Out, i: Item): Out {
    match i
    case Bin(a) => PutBin(o, a)
    case Nest(key, subs) =>
      var n := PutBin(o, Attr(key, []));
      var w := PutAttrs(n, subs);
      if n.over then w else EndNest(w, |o.bytes|)
  }

  function PutItems(o: Out, l: seq<Item>): Out
    decreases |l|
  {
    if l == [] then o else PutItems(PutItem(o, l[0]), l[1..])
  }

  // The puts before the first that does not fit into room bytes.
  function FitAttrs(l: seq<Attr>, room: int): (r: seq<Attr>)
    ensures |r| <= |l|
  {
    if l == [] || |EncodeAttr(l[0])| > room then []
    else [l[0]] + FitAttrs(l[1..], room - |EncodeAttr(l[0])|)
  }

  // The header of a nest is a put of its own; a nest that overflows keeps the members
  // before the first that did not fit, and is the last item.
  function FitItems(l: seq<Item>, room: int): (r: seq<Item>)
    decreases |l|
  {
    if l == [] then []
    else
      match l[0]
      case Bin(a) =>
        if |EncodeAttr(a)| > room then [] else [l[0]] + FitItems(l[1..], room - |EncodeAttr(a)|)
      case Nest(key, subs) =>
        if 4 > room then []
        else
          var kept := FitAttrs(subs, room - 4);
          if |kept| < |subs| then [Nest(key, kept)]
          else [l[0]] + FitItems(l[1..], room - 4 - |EncodeAttrs(subs)|)
  }

  lemma {:induction false} FitAttrsSpec(l: seq<Attr>, room: int)
    ensures var n := |FitAttrs(l, room)|;
      && FitAttrs(l, room) == l[..n]
      && (room >= 0 ==> |EncodeAttrs(l[..n])| <= room)
      && (n < |l| ==> |EncodeAttrs(l[..n])| + |EncodeAttr(l[n])| > room)
    decreases |l|
  {
    hide EncodeAttr;
    if l != [] && |EncodeAttr(l[0])| <= room {
      var n := |FitAttrs(l, room)|;
      FitAttrsSpec(l[1..], room - |EncodeAttr(l[0])|);
      assert l[..n] == [l[0]] + l[1..][..n - 1];
    }
  }

  lemma {:induction false} OverSticks(o: Out, l: seq<Attr>)
    requires o.over
    ensures PutAttrs(o, l) == o
    decreases |l|
  {
    hide EncodeAttr;
    if l != [] {
      OverSticks(o, l[1..]);
    }
  }

  lemma {:induction false} ItemsStick(o: Out, l: seq<Item>)
    requires o.over
    ensures PutItems(o, l) == o
    decreases |l|
  {
    hide EncodeAttr;
    if l != [] {
      if l[0].Nest? { OverSticks(o, l[0].subs); }
      ItemsStick(o, l[1..]);
    }
  }

  lemma {:induction false} PutAttrsFits(o: Out, l: seq<Attr>)
    requires !o.over && |o.bytes| <= o.cap
    ensures var kept := FitAttrs(l, o.cap - |o.bytes|);
      PutAttrs(o, l) == Out(o.bytes + EncodeAttrs(kept), o.cap, |kept| < |l|)
    decreases |l|
  {
    hide EncodeAttr;
    if l == [] {
      assert o.bytes + [] == o.bytes;
    } else {
      var n := PutBin(o, l[0]);
      if n.over {
        OverSticks(n, l[1..]);
        assert o.bytes + [] == o.bytes;
      } else {
        PutAttrsFits(n, l[1..]);
        var rest := FitAttrs(l[1..], n.cap - |n.bytes|);
        assert FitAttrs(l, o.cap - |o.bytes|)[1..] == rest;
        assert o.bytes + EncodeAttr(l[0]) + EncodeAttrs(rest) == o.bytes + (EncodeAttr(l[0]) + EncodeAttrs(rest));
      }
    }
  }

  // Closing a nest makes header and members one attribute.
  lemma NestCloses(o: Out, key: nat, subs: seq<Attr>)
    ensures var w := o.(bytes := o.bytes + EncodeAttr(Attr(key, [])) + EncodeAttrs(subs));
      EndNest(w, |o.bytes|) == o.(bytes := o.bytes + EncodeAttr(Attr(key, EncodeAttrs(subs))))
  {
    hide Le2, EncodeAttrs;
    var e := EncodeAttrs(subs);
    EmptyAttr(key);
    Aligned(subs);
    var w := o.(bytes := o.bytes + EncodeAttr(Attr(key, [])) + e);
    assert w.bytes[..|o.bytes|] == o.bytes;
    assert w.bytes[|o.bytes| + 2..] == Le2(key % 0x10000) + e;
    assert Fill(Pad(4 + |e|), 0) == [];
    assert EncodeAttr(Attr(key, e)) == Le2((4 + |e|) % 0x10000) + (Le2(key % 0x10000) + e);
  }

  lemma EmptyAttr(key: nat)
    ensures EncodeAttr(Attr(key, [])) == Le2(4) + Le2(key % 0x10000)
  {
  }

  // Whatever the items, the buffer holds exactly the puts before the first that did not
  // fit, and over tells whether there was one.
  lemma {:induction false} PutItemsFits(o: Out, l: seq<Item>)
    requires !o.over && |o.bytes| <= o.cap
    ensures var kept := FitItems(l, o.cap - |o.bytes|);
      PutItems(o, l) == Out(o.bytes + EncodeItems(kept), o.cap, kept != l)
    decreases |l|
  {
    hide EncodeItems, FitItems, PutItem;
    var room := o.cap - |o.bytes|;
    NoItems();
    if l == [] {
      FitNone(room);
      assert o.bytes + [] == o.bytes;
    } else {
      PutItemFits(o, l[0]);
      var n := PutItem(o, l[0]);
      var head := FitItems([l[0]], room);
      if n.over {
        ItemsStick(n, l[1..]);
        FirstEnds(l, room);
      } else {
        FirstGoesOn(l, room);
        PutItemsFits(n, l[1..]);
        var rest := FitItems(l[1..], n.cap - |n.bytes|);
        ItemsInTwo([l[0]], rest);
        assert o.bytes + EncodeItems([l[0]]) + EncodeItems(rest) == o.bytes + (EncodeItems([l[0]]) + EncodeItems(rest));
        assert ([l[0]] + rest)[1..] == rest && [l[0]] + l[1..] == l;
      }
    }
  }

  lemma {:induction false} AttrsInTwo(a: seq<Attr>, b: seq<Attr>)
    ensures EncodeAttrs(a + b) == EncodeAttrs(a) + EncodeAttrs(b)
  {
    hide EncodeAttr;
    if a == [] {
      assert a + b == b;
    } else {
      AttrsInTwo(a[1..], b);
      assert (a + b)[1..] == a[1..] + b;
      Regroup(EncodeAttr(a[0]), EncodeAttrs(a[1..]), EncodeAttrs(b));
    }
  }

  lemma {:induction false} FlatsInTwo(a: seq<Item>, b: seq<Item>)
    ensures Flats(a + b) == Flats(a) + Flats(b)
  {
    hide Flat;
    if a == [] {
      assert a + b == b;
    } else {
      FlatsInTwo(a[1..], b);
      assert (a + b)[1..] == a[1..] + b;
    }
  }

  lemma ItemsInTwo(a: seq<Item>, b: seq<Item>)
    ensures EncodeItems(a + b) == EncodeItems(a) + EncodeItems(b)
  {
    hide Flats, EncodeAttrs;
    FlatsInTwo(a, b);
    AttrsInTwo(Flats(a), Flats(b));
  }

  lemma FitNone(room: int)
    ensures FitItems([], room) == []
  {
  }

  lemma NoItems()
    ensures EncodeItems([]) == []
  {
  }

  lemma OneItem(i: Item)
    ensures EncodeItems([i]) == EncodeAttr(Flat(i))
  {
    hide EncodeAttr, Flat;
    assert Flats([i]) == [Flat(i)];
    assert EncodeAttrs([Flat(i)]) == EncodeAttr(Flat(i)) + EncodeAttrs([]);
  }

  // The same for one item.
  lemma PutItemFits(o: Out, i: Item)
    requires !o.over && |o.bytes| <= o.cap
    ensures var kept := FitItems([i], o.cap - |o.bytes|);
      PutItem(o, i) == Out(o.bytes + EncodeItems(kept), o.cap, kept != [i])
    ensures |PutItem(o, i).bytes| <= o.cap
  {
    hide EncodeAttr, EncodeAttrs, EncodeItems, PutAttrs, FitAttrs, EndNest;
    var room := o.cap - |o.bytes|;
    var kept := FitItems([i], room);
    assert o.bytes + [] == o.bytes;
    NoItems();
    OneItem(i);
    if i.Nest? {
      EmptyAttr(i.key);
      var n := PutBin(o, Attr(i.key, []));
      if n.over {
        OverSticks(n, i.subs);
      } else {
        PutAttrsFits(n, i.subs);
        var subs := FitAttrs(i.subs, n.cap - |n.bytes|);
        FitAttrsSpec(i.subs, n.cap - |n.bytes|);
        var m := PutAttrs(n, i.subs);
        NestCloses(o.(over := m.over), i.key, subs);
        OneItem(Nest(i.key, subs));
        EncodedNest(i.key, subs);
        assert |subs| == |i.subs| ==> subs == i.subs;
      }
    }
  }

  // How FitItems goes on after the first item.
  lemma FirstEnds(l: seq<Item>, room: int)
    requires l != [] && FitItems([l[0]], room) != [l[0]]
    ensures FitItems(l, room) == FitItems([l[0]], room) && FitItems(l, room) != l
  {
    hide EncodeAttr, EncodeAttrs, FitAttrs;
  }

  lemma FirstGoesOn(l: seq<Item>, room: int)
    requires l != [] && FitItems([l[0]], room) == [l[0]]
    ensures FitItems(l, room) == [l[0]] + FitItems(l[1..], room - |EncodeItems([l[0]])|)
  {
    hide EncodeAttr, EncodeAttrs, FitAttrs, EncodeItems;
    OneItem(l[0]);
    if l[0].Nest? {
      EncodedNest(l[0].key, l[0].subs);
      FitAttrsSpec(l[0].subs, room - 4);
    }
  }

  lemma EncodedNest(key: nat, subs: seq<Attr>)
    ensures |EncodeAttr(Attr(key, EncodeAttrs(subs)))| == 4 + |EncodeAttrs(subs)|
  {
    hide EncodeAttrs;
    Aligned(subs);
  }
}

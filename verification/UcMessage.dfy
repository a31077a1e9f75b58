/** Whole control messages: the header, the items that fit, and the reader's view of the
    result. */
module UcMessage {
  import opened Octets
  import opened UcFormat
  import opened Wrappers

  // sizeof(struct ucmsg)
  const HEADER := 8

  // uc_put_hdr (nlusctl/put.c:44-55): the length is filled in at the end.
  function PutHdr(o: Out, cmd: nat): Out {
    if o.over || HEADER > o.cap then o.(bytes := [], over := true)
    else o.(bytes := Le4(0) + Le4(cmd % WORD))
  }

  // uc_put_end (nlusctl/put.c:57-65)
  function PutEnd(o: Out): Out {
    if |o.bytes| < HEADER then o else o.(bytes := Le4(|o.bytes| % WORD) + o.bytes[4..])
  }

  function Message(cap: nat, cmd: nat, l: seq<Item>): Out { PutEnd(PutItems(PutHdr(Out([], cap, false), cmd), l)) }

  // uc_msg (nlusctl/get.c:26-36) on len bytes
  predicate IsMessage(s: seq<Octet>) { |s| >= HEADER && Read4(s, 0) <= |s| }

  // The bytes the attribute walks are given; the declared length is at least a header's.
  function Payload(s: seq<Octet>): seq<Octet>
    requires IsMessage(s) && Read4(s, 0) >= HEADER
  {
    s[HEADER..Read4(s, 0)]
  }

  lemma MessageBytes(cap: nat, cmd: nat, l: seq<Item>)
    requires HEADER <= cap < WORD && cmd < WORD
    ensures var o := Message(cap, cmd, l); var kept := FitItems(l, cap - HEADER);
      && |o.bytes| <= cap && |o.bytes| == HEADER + |EncodeItems(kept)|
      && o == Out(Le4(|o.bytes|) + Le4(cmd) + EncodeItems(kept), cap, kept != l)
  {
    hide Le4, PutItems, FitItems, EncodeItems;
    var h := PutHdr(Out([], cap, false), cmd);
    PutItemsFits(h, l);
    var kept := FitItems(l, cap - HEADER);
    var b := Le4(0) + Le4(cmd) + EncodeItems(kept);
    assert b[4..] == Le4(cmd) + EncodeItems(kept);
    KeptFits(l, cap - HEADER);
    assert Le4(|b|) + (Le4(cmd) + EncodeItems(kept)) == Le4(|b|) + Le4(cmd) + EncodeItems(kept);
  }

  // What is kept fits.
  lemma {:induction false} KeptFits(l: seq<Item>, room: int)
    requires room >= 0
    ensures |EncodeItems(FitItems(l, room))| <= room
    decreases |l|
  {
    hide EncodeItems, FitItems;
    NoItems();
    if l == [] {
      FitNone(room);
    } else {
      FirstFits(l[0], room);
      if FitItems([l[0]], room) == [l[0]] {
        FirstGoesOn(l, room);
        var left := room - |EncodeItems([l[0]])|;
        KeptFits(l[1..], left);
        ItemsInTwo([l[0]], FitItems(l[1..], left));
      } else {
        FirstEnds(l, room);
      }
    }
  }

  lemma FirstFits(i: Item, room: int)
    requires room >= 0
    ensures |EncodeItems(FitItems([i], room))| <= room
  {
    hide EncodeItems;
    PutItemFits(Out([], room, false), i);
    assert [] + EncodeItems(FitItems([i], room)) == EncodeItems(FitItems([i], room));
  }

  lemma {:induction false} AllKept(l: seq<Item>, room: int)
    ensures FitItems(l, room) == l <==> l == [] || |EncodeItems(l)| <= room
    decreases |l|
  {
    hide EncodeItems, FitItems;
    if l == [] {
      FitNone(room);
    } else {
      assert l == [l[0]] + l[1..];
      ItemsInTwo([l[0]], l[1..]);
      OneKept(l[0], room);
      if FitItems([l[0]], room) == [l[0]] {
        var left := room - |EncodeItems([l[0]])|;
        FirstGoesOn(l, room);
        AllKept(l[1..], left);
        NoItems();
        assert ([l[0]] + FitItems(l[1..], left))[1..] == FitItems(l[1..], left);
      } else {
        FirstEnds(l, room);
      }
    }
  }

  lemma OneKept(i: Item, room: int)
    ensures FitItems([i], room) == [i] <==> |EncodeItems([i])| <= room
  {
    hide EncodeAttr, EncodeAttrs, FitAttrs, EncodeItems;
    OneItem(i);
    if i.Nest? {
      EncodedNest(i.key, i.subs);
      FitAttrsSpec(i.subs, room - 4);
      var n := |FitAttrs(i.subs, room - 4)|;
      if n < |i.subs| { MorePrefix(i.subs, n); } else { assert i.subs[..n] == i.subs; }
    }
  }

  // The first n + 1 of a list take no more than all of it.
  lemma MorePrefix(l: seq<Attr>, n: nat)
    requires n < |l|
    ensures |EncodeAttrs(l[..n])| + |EncodeAttr(l[n])| <= |EncodeAttrs(l)|
  {
    hide EncodeAttr;
    assert l == l[..n] + l[n..];
    AttrsInTwo(l[..n], l[n..]);
    assert l[n..][0] == l[n];
  }

  // Cutting a list of small items short leaves small items.
  lemma {:induction false} KeptSmall(l: seq<Item>, room: int)
    requires ItemsSmall(l)
    ensures ItemsSmall(FitItems(l, room))
    decreases |l|
  {
    hide EncodeAttr, Small;
    if l != [] {
      match l[0] {
        case Bin(a) => if |EncodeAttr(a)| <= room { KeptSmall(l[1..], room - |EncodeAttr(a)|); }
        case Nest(key, subs) =>
          CutNestSmall(key, subs, room - 4);
          KeptSmall(l[1..], room - 4 - |EncodeAttrs(subs)|);
      }
    }
  }

  lemma CutNestSmall(key: nat, subs: seq<Attr>, room: int)
    requires Small(Attr(key, EncodeAttrs(subs))) && AllSmall(subs)
    ensures var kept := FitAttrs(subs, room); Small(Attr(key, EncodeAttrs(kept))) && AllSmall(kept)
  {
    hide EncodeAttr;
    FitAttrsSpec(subs, room);
    var n := |FitAttrs(subs, room)|;
    assert subs == subs[..n] + subs[n..];
    AttrsInTwo(subs[..n], subs[n..]);
  }

  // For any items and any buffer with room for a header, what is in the buffer is a
  // message with that command and length, which reads back as exactly the puts before
  // the first that did not fit: every key's first attribute among them, and every nest's
  // members.
  lemma MessageReadsBack(cap: nat, cmd: nat, l: seq<Item>)
    requires HEADER <= cap < WORD && cmd < WORD && ItemsSmall(l)
    ensures var o := Message(cap, cmd, l); var kept := FitItems(l, cap - HEADER);
      && |o.bytes| <= cap && (o.over <==> kept != l)
      && IsMessage(o.bytes) && Read4(o.bytes, 0) == |o.bytes| >= HEADER && Read4(o.bytes, 4) == cmd
      && Attrs(Payload(o.bytes)) == Flats(kept)
      && (forall k :: 0 <= k < |kept| && kept[k].Nest? ==> Attrs(Flats(kept)[k].payload) == kept[k].subs)
      && (forall key: nat :: Found(Payload(o.bytes), Find(Payload(o.bytes), key)) == Lookup(Flats(kept), key))
  {
    hide Le4, Read4, Message, FitItems, EncodeItems, Attrs, Flats, Found, Find, Lookup, ItemsSmall;
    var s, kept := Message(cap, cmd, l).bytes, FitItems(l, cap - HEADER);
    MessageBytes(cap, cmd, l);
    assert s[0..4] == Le4(|s|) && s[4..8] == Le4(cmd) && s[8..] == EncodeItems(kept);
    ReadsBack4(s, 0, |s|);
    ReadsBack4(s, 4, cmd);
    assert Payload(s) == EncodeItems(kept);
    KeptSmall(l, cap - HEADER);
    ItemsReadBack(kept);
  }

  // Nothing is lost exactly when it all fits.
  lemma FitsWhole(cap: nat, cmd: nat, l: seq<Item>)
    requires HEADER <= cap < WORD && cmd < WORD
    ensures !Message(cap, cmd, l).over <==> HEADER + |EncodeItems(l)| <= cap
  {
    hide Message, FitItems, EncodeItems;
    MessageBytes(cap, cmd, l);
    AllKept(l, cap - HEADER);
    NoItems();
  }
}

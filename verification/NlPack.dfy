/** The netlink message under construction (netlink/pack.c, netlink/pack_sub.c), and two
    commands of wsupp_netlink.c built with it. */
module NlPack {
  import opened Octets
  import opened NlAttr
  import U = UcFormat
  import opened Seqs

  // struct nlgen with its struct nlmsg, as nl_header sets it up.
  function GenHeader(fam: nat, seq_: nat, cmd: Octet, ver: Octet): (s: seq<Octet>)
    ensures |s| == 20
  {
    Le4(20) + Le2(fam % 0x10000) + Le2(1) + Le4(seq_ % WORD) + Le4(0) + [cmd, ver] + Le2(0)
  }

  lemma {:induction false} PackedMore(s: seq<Octet>, l: seq<Attr>, a: Attr, t: seq<Octet>)
    requires Packed(s, l) && Packed(t, [a])
    ensures Packed(s + t, l + [a])
    decreases |l|
  {
    hide Begins, Extend;
    if l == [] {
      assert s + t == t && l + [a] == [a];
    } else {
      var n := Extend(4 + |l[0].payload|);
      BeginsMore(s, t, l[0]);
      PackedMore(s[n..], l[1..], a, t);
      assert (s + t)[n..] == s[n..] + t && (l + [a])[1..] == l[1..] + [a];
    }
  }

  lemma BeginsMore(s: seq<Octet>, t: seq<Octet>, a: Attr)
    requires Begins(s, a)
    ensures Begins(s + t, a) && Extend(4 + |a.payload|) <= |s|
  {
    hide U.Header, Extend;
    assert (s + t)[..4] == s[..4] && (s + t)[4..4 + |a.payload|] == s[4..4 + |a.payload|];
  }

  lemma PackedOne(t: seq<Octet>, a: Attr)
    requires Begins(t, a) && |t| == Extend(4 + |a.payload|)
    ensures Packed(t, [a])
  {
    hide Begins, Extend;
    assert t[Extend(4 + |a.payload|)..] == [] && [a][1..] == [];
  }

  lemma Fits(end: nat, size: nat, len: nat)
    requires Aligned(end) && Aligned(len) && end + size <= len
    ensures end + Extend(size) <= len && Aligned(end + Extend(size))
  {
  }

  class Netlink {
    const txbuf: array<Octet>
    const txlen: nat
    var txend: nat
    var txover: bool
    var seq_: nat

    // The buffer's size is a multiple of four, as are all the buffers of the program:
    // nl_alloc does not count the padding when it looks for room.
    ghost predicate Valid()
      reads this
    {
      txend <= txlen <= txbuf.Length && Aligned(txlen) && Aligned(txend)
    }

    // From base on there are the attributes l.
    ghost predicate Holds(base: nat, l: seq<Attr>)
      reads this, txbuf
      requires Valid()
    {
      base <= txend && Packed(txbuf[base..txend], l)
    }

    constructor (buf: array<Octet>, len: nat)
      requires len <= buf.Length && Aligned(len)
      ensures Valid() && txbuf == buf && txlen == len && txend == 0 && !txover
    {
      txbuf, txlen, txend, txover, seq_ := buf, len, 0, false, 0;
    }

    // nl_alloc; -1 for NULL.
    method Alloc(size: nat) returns (r: int)
      requires Valid()
      modifies `txend, txbuf
      ensures Valid()
      ensures r < 0 <==> txover || old(txend) + size > txlen
      ensures r < 0 ==> txend == old(txend) && txbuf[..] == old(txbuf[..])
      ensures r >= 0 ==> r == old(txend) && txend == r + Extend(size)
                         && (forall k :: 0 <= k < txbuf.Length && !(r <= k < r + size) ==> txbuf[k] == old(txbuf[k]))
    {
      hide Aligned;
      if txover { return -1; }
      if txend + size > txlen { return -1; }
      Fits(txend, size, txlen);
      var pad := (4 - size % 4) % 4;
      r := txend;
      txend := txend + size + pad;
      forall k | r <= k < r + size { txbuf[k] := 0; }
    }

    // nl_new_cmd with nl_start_packet
    method NewCmd(fam: nat, cmd: Octet, ver: Octet)
      requires Valid()
      modifies this, txbuf
      ensures Valid() && !txover && seq_ == (old(seq_) + 1) % WORD
      ensures txlen < 20 ==> txend == 0
      ensures txlen >= 20 ==> txbuf[..20] == GenHeader(fam, seq_, cmd, ver) && txend == 20 && Holds(20, [])
    {
      hide Le4, Le2, Aligned, Extend;
      ZeroAligned();
      txend := 0;
      txover := false;
      seq_ := (seq_ + 1) % WORD;
      var at := Alloc(20);
      Twenty();
      if at < 0 { return; }
      Copy(txbuf, 0, GenHeader(fam, seq_, cmd, ver));
      assert txbuf[20..20] == [];
    }

    // nl_put; l is what is there from base on.
    method Put(key: nat, data: seq<Octet>, ghost base: nat, ghost l: seq<Attr>)
      requires Valid() && 16 <= base && Holds(base, l)
      modifies `txend, txbuf
      ensures Valid() && txbuf[4..base] == old(txbuf[4..base])
      ensures if !txover && old(txend) + 4 + |data| <= txlen then
                Holds(base, l + [U.Attr(key, data)]) && txend == old(txend) + Extend(4 + |data|)
                && txbuf[..4] == Le4(txend % WORD)
              else Holds(base, l) && txend == old(txend) && txbuf[..4] == old(txbuf[..4])
    {
      hide Le4, Aligned, Extend, Begins, Packed;
      var full := 4 + |data|;
      ghost var s, a := txbuf[base..txend], U.Attr(key, data);
      var at := Alloc(full);
      if at < 0 { return; }
      Fill(at, key, data);
      ghost var t := txbuf[at..txend];
      Copy(txbuf, 0, Le4(txend % WORD));
      assert txbuf[at..txend] == t;
      PackedOne(t, a);
      PackedMore(s, l, a, t);
      assert txbuf[base..at] == s;
      TwoParts(txbuf[..], base, at, txend);
    }

    // The header and payload of one attribute.
    method Fill(at: nat, key: nat, data: seq<Octet>)
      requires Valid() && at + Extend(4 + |data|) == txend
      modifies txbuf
      ensures Begins(txbuf[at..txend], U.Attr(key, data))
      ensures forall k :: 0 <= k < txbuf.Length && !(at <= k < txend) ==> txbuf[k] == old(txbuf[k])
    {
      hide Aligned, Extend, U.Header;
      var full := 4 + |data|;
      Copy(txbuf, at, U.Header(key, full));
      Copy(txbuf, at + 4, data);
      assert txbuf[at..at + 4] == U.Header(key, full);
      SliceOfSlice(txbuf[..], at, txend, 0, 4);
      SliceOfSlice(txbuf[..], at, txend, 4, full);
    }

    // nl_put_nest (netlink/pack_sub.c:5-15); -1 for NULL.
    method PutNest(key: nat) returns (at: int)
      requires Valid()
      modifies `txend, txbuf
      ensures Valid()
      ensures at < 0 <==> txover || old(txend) + 4 > txlen
      ensures at < 0 ==> txend == old(txend) && txbuf[..] == old(txbuf[..])
      ensures at >= 0 ==> at == old(txend) && txend == at + 4 && txbuf[..at] == old(txbuf[..at])
                          && txbuf[at..txend] == U.Header(key, 4)
    {
      hide Le2, Aligned, Extend;
      Four();
      at := Alloc(4);
      if at < 0 { return; }
      Copy(txbuf, at, U.Header(key, 4));
    }

    // nl_end_nest (netlink/pack_sub.c:17-27): a nest that was refused, or has no members,
    // spoils the message.
    method EndNest(at: int, key: nat, ghost base: nat, ghost l: seq<Attr>)
      requires Valid() && 16 <= base <= txend
      requires at >= 0 ==> base <= at && at + 4 <= txend && Packed(txbuf[base..at], l)
                           && txbuf[at..at + 4] == U.Header(key, 4) && Aligned(at)
      modifies `txover, txbuf
      ensures Valid() && txbuf[..base] == old(txbuf[..base])
      ensures if at < 0 || at + 4 == txend then txover && txbuf[..] == old(txbuf[..])
              else Holds(base, l + [U.Attr(key, old(txbuf[at + 4..txend]))]) && txover == old(txover)
    {
      hide Le2, Aligned, Extend, Begins, Packed;
      if at < 0 || at >= txend - 4 {
        txover := true;
        return;
      }
      ghost var s, e := txbuf[base..at], txbuf[at + 4..txend];
      Copy(txbuf, at, Le2((txend - at) % 0x10000));
      ghost var t := txbuf[at..txend];
      NestExtent(at, txend);
      SliceOfSlice(txbuf[..], at, txend, 0, 2);
      SliceOfSlice(txbuf[..], at, txend, 2, 4);
      SliceOfSlice(txbuf[..], at, txend, 4, txend - at);
      SliceOfSlice(old(txbuf[..]), at, at + 4, 2, 4);
      assert txbuf[at + 2..at + 4] == old(txbuf[at + 2..at + 4]);
      assert txbuf[at + 4..txend] == e;
      HeadIs(t, key, e);
      PackedOne(t, U.Attr(key, e));
      PackedMore(s, l, U.Attr(key, e), t);
      assert txbuf[base..at] == s;
      TwoParts(txbuf[..], base, at, txend);
    }
  }

  lemma Twenty()
    ensures Extend(20) == 20
  {
  }

  lemma Four()
    ensures Extend(4) == 4
  {
  }

  lemma NestExtent(at: nat, end: nat)
    requires Aligned(at) && Aligned(end) && at <= end
    ensures Extend(end - at) == end - at
  {
  }

  lemma HeadIs(t: seq<Octet>, key: nat, e: seq<Octet>)
    requires |t| == 4 + |e| == Extend(4 + |e|) && t[4..] == e
    requires t[..2] == Le2((4 + |e|) % 0x10000) && t[2..4] == U.Header(key, 4)[2..]
    ensures Begins(t, U.Attr(key, e))
  {
    hide Le2;
    assert t[..4] == t[..2] + t[2..4];
  }
}

/** The writer of control messages over its buffer (nlusctl/put.c) and the reader's walks
    over a received one (nlusctl/get.c), in place. */
module UcBuffer {
  import opened Octets
  import opened UcFormat
  import opened UcMessage
  import opened Wrappers
  import opened Seqs

  // Nothing at or after end is ever written.
  class UcBuf {
    var brk: array<Octet>
    var ptr: nat
    var end: nat
    var over: bool

    ghost predicate Valid()
      reads this
    {
      ptr <= end <= brk.Length
    }

    ghost function Now(): (o: Out)
      requires Valid()
      reads this, brk
    {
      Out(brk[..ptr], end, over)
    }

    // uc_buf_set
    constructor (buf: array<Octet>, len: nat)
      requires len <= buf.Length
      ensures Valid() && brk == buf && Now() == Out([], len, false)
    {
      brk, ptr, end, over := buf, 0, len, false;
    }

    // uc_alloc; -1 for NULL. Only the padding is written.
    method Alloc(len: nat) returns (r: int)
      requires Valid()
      modifies this, brk
      ensures Valid() && brk == old(brk) && brk[end..] == old(brk[end..]) && end == old(end)
      ensures r < 0 <==> old(over) || old(ptr) + len + Pad(len) > end
      ensures r < 0 ==> over && ptr == old(ptr) && brk[..] == old(brk[..])
      ensures r >= 0 ==> r == old(ptr) && !over && ptr == r + len + Pad(len)
      ensures r >= 0 ==> brk[..r + len] == old(brk[..r + len]) && brk[r + len..ptr] == Fill(Pad(len), 0)
    {
      var pad := (4 - len % 4) % 4;
      var next := ptr + len + pad;
      if next > end { over := true; }
      if over { return -1; }
      r := ptr;
      forall k | ptr + len <= k < next { brk[k] := 0; }
      ptr := next;
    }

    method Store(at: nat, s: seq<Octet>)
      requires Valid() && at + |s| <= ptr
      modifies brk
      ensures brk[end..] == old(brk[end..])
      ensures brk[..ptr] == old(brk[..at]) + s + old(brk[at + |s|..ptr])
    {
      forall k | at <= k < at + |s| { brk[k] := s[k - at]; }
    }

    // uc_put_hdr
    method PutHdr(cmd: nat)
      requires Valid()
      modifies this, brk
      ensures Valid() && brk == old(brk) && brk[end..] == old(brk[end..]) && Now() == UcMessage.PutHdr(old(Now()), cmd)
    {
      hide Le4;
      ptr := 0;
      var r := Alloc(8);
      if r < 0 { return; }
      assert Fill(Pad(8), 0) == [];
      Copy(brk, 4, Le4(cmd % WORD));
      Copy(brk, 0, Le4(0));
      TwoParts(brk[..], 0, 4, 8);
    }

    // uc_put_end
    method PutEnd()
      requires Valid()
      modifies brk
      ensures brk[end..] == old(brk[end..])
      ensures Now() == UcMessage.PutEnd(old(Now()))
    {
      hide Le4;
      if 8 > ptr { return; }
      Store(0, Le4(ptr % WORD));
    }

    // uc_put_attr: the payload is left to the caller.
    method PutAttr(key: nat, len: nat) returns (r: int)
      requires Valid()
      modifies this, brk
      ensures Valid() && brk == old(brk) && brk[end..] == old(brk[end..]) && end == old(end)
      ensures r < 0 <==> old(over) || old(ptr) + 4 + len + Pad(4 + len) > end
      ensures r < 0 ==> over && ptr == old(ptr) && brk[..] == old(brk[..])
      ensures r >= 0 ==> r == old(ptr) && !over && ptr == r + 4 + len + Pad(4 + len)
      ensures r >= 0 ==> brk[..r + 4] == old(brk[..r]) + Header(key, 4 + len)
      ensures r >= 0 ==> brk[r + 4 + len..ptr] == Fill(Pad(4 + len), 0)
    {
      hide Le2, Pad;
      var total := 4 + len;
      r := Alloc(total);
      if r < 0 { return; }
      SliceOfSlice(brk[..], 0, r + total, 0, r);
      SliceOfSlice(old(brk[..]), 0, r + total, 0, r);
      PutAttrHeader(r, key, total);
    }

    // The two fields of an attribute's header.
    method PutAttrHeader(at: nat, key: nat, total: nat)
      requires Valid() && at + 4 <= ptr
      modifies brk
      ensures brk[..at + 4] == old(brk[..at]) + Header(key, total)
      ensures forall k :: at + 4 <= k < brk.Length ==> brk[k] == old(brk[k])
    {
      hide Le2;
      Copy(brk, at, Le2(total % 0x10000));
      Copy(brk, at + 2, Le2(key % 0x10000));
      ThreeParts(brk[..], at, at + 2, at + 4);
      assert brk[..at] == old(brk[..at]);
      assert brk[at..at + 2] == Le2(total % 0x10000);
      Regroup(old(brk[..at]), Le2(total % 0x10000), Le2(key % 0x10000));
    }

    // uc_put_bin
    method PutBin(key: nat, data: seq<Octet>)
      requires Valid()
      modifies this, brk
      ensures Valid() && brk == old(brk) && brk[end..] == old(brk[end..])
      ensures Now() == UcFormat.PutBin(old(Now()), Attr(key, data))
    {
      hide Header, Pad;
      var at := PutAttr(key, |data|);
      if at < 0 { return; }
      Store(at + 4, data);
      assert brk[..ptr] == old(brk[..ptr]) + EncodeAttr(Attr(key, data));
    }

    // uc_put_int
    method PutInt(key: nat, v: int)
      requires Valid()
      modifies this, brk
      ensures Valid() && brk == old(brk) && brk[end..] == old(brk[end..])
      ensures Now() == UcFormat.PutBin(old(Now()), Attr(key, Int4(v)))
    {
      hide Header, Int4, Pad;
      var at := PutAttr(key, 4);
      if at < 0 { return; }
      Store(at + 4, Int4(v));
      assert brk[..ptr] == old(brk[..ptr]) + EncodeAttr(Attr(key, Int4(v)));
    }

    // uc_put_str
    method PutStr(key: nat, s: seq<Octet>)
      requires Valid()
      modifies this, brk
      ensures Valid() && brk == old(brk) && brk[end..] == old(brk[end..])
      ensures Now() == UcFormat.PutBin(old(Now()), Attr(key, s + [0]))
    {
      PutBin(key, s + [0]);
    }

    // uc_put_flag and uc_put_nest
    method PutEmpty(key: nat) returns (at: int)
      requires Valid()
      modifies this, brk
      ensures Valid() && brk == old(brk) && brk[end..] == old(brk[end..])
      ensures Now() == UcFormat.PutBin(old(Now()), Attr(key, []))
      ensures at == if over then -1 else old(ptr)
      ensures at >= 0 ==> ptr == at + 4
    {
      hide Header, Pad;
      at := PutAttr(key, 0);
      if at < 0 { return -1; }
      assert brk[..ptr] == old(brk[..ptr]) + EncodeAttr(Attr(key, []));
    }

    // uc_end_nest
    method EndNest(at: int)
      requires Valid() && (at >= 0 ==> at + 4 <= ptr)
      modifies brk
      ensures brk[end..] == old(brk[end..])
      ensures Now() == if at < 0 then old(Now()) else UcFormat.EndNest(old(Now()), at)
    {
      hide Le2;
      if at < 0 { return; }
      Store(at, Le2((ptr - at) % 0x10000));
    }
  }

  // ---- Reading: a region of len bytes at off ----

  // uc_get_0_in; -1 for NULL. Positions are relative to the region.
  method GetFirst(buf: array<Octet>, off: nat, len: nat) returns (r: int)
    requires off + len <= buf.Length
    ensures r == if Inside(buf[off..off + len], 0) then 0 else -1
  {
    if len < 4 { return -1; }
    var alen := buf[off] as int + buf[off + 1] as int * 0x100;
    if alen > len { return -1; }
    r := 0;
  }

  // uc_get_n_in
  method GetNext(buf: array<Octet>, off: nat, len: nat, at: nat) returns (r: int)
    requires off + len <= buf.Length && Inside(buf[off..off + len], at)
    ensures var q := Next(buf[off..off + len], at); r == if q == len then -1 else q
  {
    ghost var s := buf[off..off + len];
    var p := off + at;
    var aln := buf[p] as int + buf[p + 1] as int * 0x100;
    assert aln == Read2(s, at);
    if aln == 0 { return -1; }
    aln := aln + (4 - aln % 4) % 4;
    var q := at + aln;
    if q + 4 > len { return -1; }
    var qlen := buf[off + q] as int + buf[off + q + 1] as int * 0x100;
    assert qlen == Read2(s, q);
    if q + qlen > len { return -1; }
    r := q;
  }

  // uc_get and uc_sub
  method Get(buf: array<Octet>, off: nat, len: nat, key: nat) returns (r: int)
    requires off + len <= buf.Length
    ensures var q := Find(buf[off..off + len], key); r == if q == len then -1 else q
    ensures r < 0 ==> Lookup(Attrs(buf[off..off + len]), key) == None
    ensures r >= 0 ==> Inside(buf[off..off + len], r)
                       && Lookup(Attrs(buf[off..off + len]), key) == Some(AttrAt(buf[off..off + len], r))
  {
    hide Inside, Next, Attrs, Lookup, AttrAt, Found;
    ghost var s := buf[off..off + len];
    r := GetFirst(buf, off, len);
    if r == 0 { InsideIsBefore(s, 0); }
    while r >= 0
      invariant -1 <= r < len && (r >= 0 ==> Inside(s, r))
      invariant Find(s, key) == if r >= 0 then FindFrom(s, r, key) else len
      decreases if r >= 0 then len - r else 0
    {
      var k := KeyAt(buf, off, len, r);
      if k == key { break; }
      r := GetNext(buf, off, len, r);
      if r >= 0 { InsideIsBefore(s, r); }
    }
    GetIsLookup(s, key, r);
  }

  lemma GetIsLookup(s: seq<Octet>, key: nat, r: int)
    requires -1 <= r < |s| && Find(s, key) == if r >= 0 then r else |s|
    ensures r < 0 ==> Lookup(Attrs(s), key) == None
    ensures r >= 0 ==> Inside(s, r) && Lookup(Attrs(s), key) == Some(AttrAt(s, r))
  {
    hide Attrs, Lookup, Find, AttrAt;
    FindIsLookup(s, key);
  }

  method KeyAt(buf: array<Octet>, off: nat, len: nat, at: nat) returns (k: nat)
    requires off + len <= buf.Length && Inside(buf[off..off + len], at)
    ensures k == AttrAt(buf[off..off + len], at).key
  {
    k := buf[off + at + 2] as int + buf[off + at + 3] as int * 0x100;
  }
}

/** struct sha1 and the code that updates it in place: crypto/sha1.c,
    crypto/sha1_hash.c, crypto/sha1_hmac.c, crypto/pbkdf2_sha1.c. */
module Sha1Context {
  import opened Bytes
  import opened Sha1Spec
  import opened Seqs

  // The last one or two blocks as sha1_last builds them from the tail of the data
  // and the total size.
  function LastBlocks(tail: seq<byte>, total: nat): seq<byte>
    requires |tail| < BLOCK
  {
    tail + [0x80] + Fill((119 - |tail|) % BLOCK, 0) + Be64(8 * total)
  }

  lemma LastBlocksArePadding(tail: seq<byte>, total: nat)
    requires |tail| == total % BLOCK
    ensures LastBlocks(tail, total) == tail + Padding(total)
  {
  }

  // The blocks sha1_load_pad1, pad2 and pad0 assemble.
  function Pad1(tail: seq<byte>, total: nat): Block64
    requires |tail| <= 55
  {
    tail + [0x80] + Fill(55 - |tail|, 0) + Be64(8 * total)
  }
  function Pad2(tail: seq<byte>): Block64
    requires |tail| < BLOCK
  {
    tail + [0x80] + Fill(63 - |tail|, 0)
  }
  function Pad0(total: nat): Block64 { Fill(56, 0) + Be64(8 * total) }

  lemma LastBlocksSplit(tail: seq<byte>, total: nat)
    requires |tail| < BLOCK
    ensures |tail| <= 55 ==> LastBlocks(tail, total) == Pad1(tail, total)
    ensures |tail| > 55 ==> LastBlocks(tail, total) == Pad2(tail) + Pad0(total)
  {
    hide Be64;
    if |tail| > 55 {
      assert Fill(119 - |tail|, 0) == Fill(63 - |tail|, 0) + Fill(56, 0);
    }
  }

  lemma AbsorbTwo(h: Hash, a: Block64, b: Block64)
    ensures Absorb(h, a + b) == Compress(Compress(h, a), b)
  {
    hide Compress, Absorb;
    AbsorbConcat(h, a, b);
    AbsorbOne(h, a);
    AbsorbOne(Compress(h, a), b);
  }

  lemma AbsorbNone(h: Hash)
    ensures Absorb(h, []) == h
  {
  }

  lemma AbsorbNext(h: Hash, s: seq<byte>, n: nat)
    requires n % BLOCK == 0 && n + BLOCK <= |s|
    ensures Absorb(h, s[..n + BLOCK]) == Compress(Absorb(h, s[..n]), s[n..n + BLOCK])
  {
    hide Compress, Absorb;
    assert s[..n + BLOCK] == s[..n] + s[n..n + BLOCK];
    AbsorbConcat(h, s[..n], s[n..n + BLOCK]);
    AbsorbOne(Absorb(h, s[..n]), s[n..n + BLOCK]);
  }

  lemma RestIsLast(h: Hash, data: seq<byte>, n: nat, total: nat)
    requires n <= |data| < n + BLOCK && n % BLOCK == 0 && total % BLOCK == |data| % BLOCK
    ensures Absorb(Absorb(h, data[..n]), LastBlocks(data[n..], total)) == Absorb(h, data + Padding(total))
  {
    hide Compress, Absorb, LastBlocks, Padding;
    assert |data[n..]| == total % BLOCK;
    LastBlocksArePadding(data[n..], total);
    AbsorbConcat(h, data[..n], data[n..] + Padding(total));
    assert data + Padding(total) == data[..n] + (data[n..] + Padding(total));
  }

  // sha1_put_size (crypto/sha1.c:144-152)
  method PutSize(blk: array<byte>, total: nat)
    requires blk.Length == BLOCK
    modifies blk
    ensures blk[56..] == Be64(8 * total)
    ensures forall k :: 0 <= k < 56 ==> blk[k] == old(blk[k])
  {
    hide Be32;
    var size := Be64(8 * total);
    forall k | 0 <= k < 8 { blk[56 + k] := size[k]; }
  }

  class Context {
    const H: array<bv32>
    const W: array<bv32>

    ghost predicate Valid() {
      H.Length == 5 && W.Length == 80 && H != W
    }

    ghost function Value(): Hash
      requires Valid()
      reads H
    {
      Hash(H[0], H[1], H[2], H[3], H[4])
    }

    ghost predicate Loaded(blk: Block64)
      requires Valid()
      reads W
    {
      forall t :: 0 <= t < 80 ==> W[t] == Schedule(blk, t)
    }

    // An uninitialised struct on the stack.
    constructor ()
      ensures Valid() && fresh(H) && fresh(W)
    {
      H := new bv32[5];
      W := new bv32[80];
    }

    // sha1_init (crypto/sha1.c:61-70)
    method Init()
      requires Valid()
      modifies H
      ensures Value() == INITIAL
    {
      H[0] := 0x67452301;
      H[1] := 0xEFCDAB89;
      H[2] := 0x98BADCFE;
      H[3] := 0x10325476;
      H[4] := 0xC3D2E1F0;
    }

    // sha1_load (crypto/sha1.c:122-132)
    method Load(blk: array<byte>, off: nat)
      requires Valid() && off + BLOCK <= blk.Length
      modifies W
      ensures Loaded(blk[off..off + BLOCK])
    {
      hide Pack, Mix;
      ghost var b: Block64 := blk[off..off + BLOCK];
      for i := 0 to 16
        invariant forall t :: 0 <= t < i ==> W[t] == Schedule(b, t)
      {
        var p := off + 4 * i;
        W[i] := Pack(blk[p], blk[p + 1], blk[p + 2], blk[p + 3]);
      }
      for i := 16 to 80
        invariant forall t :: 0 <= t < i ==> W[t] == Schedule(b, t)
      {
        W[i] := Mix(W[i - 3], W[i - 8], W[i - 14], W[i - 16]);
      }
    }

    // sha1_hash (crypto/sha1.c:76-112): four loops of twenty turns, j running on.
    method HashBlock(ghost blk: Block64)
      requires Valid() && Loaded(blk)
      modifies H
      ensures Value() == Compress(old(Value()), blk)
    {
      hide Temp, Rol30, Choose, Parity, Majority, Schedule, Add32;
      ghost var h := Value();
      var A, B, C, D, E := H[0], H[1], H[2], H[3], H[4];
      var j := 0;
      for i := 0 to 20
        invariant j == i && Hash(A, B, C, D, E) == Turns(h, blk, j)
      {
        var temp := Temp(A, Choose(B, C, D), E, W[j], 0x5A827999);
        E, D, C, B, A := D, C, Rol30(B), A, temp;
        j := j + 1;
      }
      for i := 0 to 20
        invariant j == 20 + i && Hash(A, B, C, D, E) == Turns(h, blk, j)
      {
        var temp := Temp(A, Parity(B, C, D), E, W[j], 0x6ED9EBA1);
        E, D, C, B, A := D, C, Rol30(B), A, temp;
        j := j + 1;
      }
      for i := 0 to 20
        invariant j == 40 + i && Hash(A, B, C, D, E) == Turns(h, blk, j)
      {
        var temp := Temp(A, Majority(B, C, D), E, W[j], 0x8F1BBCDC);
        E, D, C, B, A := D, C, Rol30(B), A, temp;
        j := j + 1;
      }
      for i := 0 to 20
        invariant j == 60 + i && Hash(A, B, C, D, E) == Turns(h, blk, j)
      {
        var temp := Temp(A, Parity(B, C, D), E, W[j], 0xCA62C1D6);
        E, D, C, B, A := D, C, Rol30(B), A, temp;
        j := j + 1;
      }
      H[0] := Add32(H[0], A);
      H[1] := Add32(H[1], B);
      H[2] := Add32(H[2], C);
      H[3] := Add32(H[3], D);
      H[4] := Add32(H[4], E);
    }

    // sha1_fini (crypto/sha1.c:114-120)
    method Fini(out: array<byte>, off: nat)
      requires Valid() && off + DIGEST <= out.Length
      modifies out
      ensures out[off..off + DIGEST] == Output(Value())
      ensures forall k :: 0 <= k < out.Length && !(off <= k < off + DIGEST) ==> out[k] == old(out[k])
    {
      hide Unpack;
      for i := 0 to 5
        invariant forall j :: 0 <= j < i ==> out[off + 4 * j..off + 4 * j + 4] == Unpack(H[j])
        invariant forall k :: 0 <= k < out.Length && !(off <= k < off + DIGEST) ==> out[k] == old(out[k])
      {
        ghost var before := out[..];
        StoreBig(H[i], out, off + 4 * i);
        forall j | 0 <= j < i
          ensures out[off + 4 * j..off + 4 * j + 4] == Unpack(H[j])
        {
          assert out[off + 4 * j..off + 4 * j + 4] == before[off + 4 * j..off + 4 * j + 4];
        }
      }
      forall j | 0 <= j < 5
        ensures out[off..off + DIGEST][4 * j..4 * j + 4] == Unpack(H[j])
      {
        assert out[off..off + DIGEST][4 * j..4 * j + 4] == out[off + 4 * j..off + 4 * j + 4];
      }
      FiveWords(out[off..off + DIGEST], Value());
    }

    // sha1_proc (crypto/sha1.c:196-200)
    method Proc(blk: array<byte>, off: nat)
      requires Valid() && off + BLOCK <= blk.Length
      modifies H, W
      ensures Value() == Compress(old(Value()), old(blk[off..off + BLOCK]))
    {
      hide Compress, Schedule;
      Load(blk, off);
      HashBlock(blk[off..off + BLOCK]);
    }

    // sha1_load_pad1, sha1_load_pad2 and sha1_load_pad0 (crypto/sha1.c:154-187)
    method LoadPad1(ptr: array<byte>, off: nat, tail: nat, total: nat)
      requires Valid() && tail <= 55 && off + tail <= ptr.Length
      modifies W
      ensures Loaded(Pad1(ptr[off..off + tail], total))
    {
      hide Schedule, Be64;
      var block := new byte[BLOCK](_ => 0);
      forall k | 0 <= k < tail { block[k] := ptr[off + k]; }
      block[tail] := 0x80;
      PutSize(block, total);
      assert block[..] == Pad1(ptr[off..off + tail], total);
      Load(block, 0);
      assert block[0..BLOCK] == block[..];
    }

    method LoadPad2(ptr: array<byte>, off: nat, tail: nat)
      requires Valid() && tail < BLOCK && off + tail <= ptr.Length
      modifies W
      ensures Loaded(Pad2(ptr[off..off + tail]))
    {
      hide Schedule;
      var block := new byte[BLOCK](_ => 0);
      forall k | 0 <= k < tail { block[k] := ptr[off + k]; }
      block[tail] := 0x80;
      assert block[..] == Pad2(ptr[off..off + tail]);
      Load(block, 0);
      assert block[0..BLOCK] == block[..];
    }

    method LoadPad0(total: nat)
      requires Valid()
      modifies W
      ensures Loaded(Pad0(total))
    {
      hide Schedule, Be64;
      var block := new byte[BLOCK](_ => 0);
      PutSize(block, total);
      assert block[..] == Pad0(total);
      Load(block, 0);
      assert block[0..BLOCK] == block[..];
    }

    // sha1_last (crypto/sha1.c:202-215)
    method Last(ptr: array<byte>, off: nat, len: nat, total: nat)
      requires Valid() && off + len % BLOCK <= ptr.Length
      modifies H, W
      ensures Value() == Absorb(old(Value()), LastBlocks(old(ptr[off..off + len % BLOCK]), total))
    {
      hide Compress, Schedule, Absorb, LastBlocks;
      var tail := len % BLOCK;
      ghost var data := ptr[off..off + tail];
      LastBlocksSplit(data, total);
      if tail > 55 {
        LoadPad2(ptr, off, tail);
        HashBlock(Pad2(data));
        LoadPad0(total);
        HashBlock(Pad0(total));
        AbsorbTwo(old(Value()), Pad2(data), Pad0(total));
      } else {
        LoadPad1(ptr, off, tail, total);
        HashBlock(Pad1(data, total));
        AbsorbOne(old(Value()), Pad1(data, total));
      }
    }

    // The block loop of sha1 and of hash_rest (crypto/sha1_hash.c:13-16,
    // crypto/sha1_hmac.c:18-21).
    method ProcWhole(input: array<byte>, off: nat, len: nat) returns (ptr: nat)
      requires Valid() && off + len <= input.Length
      modifies H, W
      ensures off <= ptr <= off + len < ptr + BLOCK && (ptr - off) % BLOCK == 0
      ensures Value() == Absorb(old(Value()), old(input[off..ptr]))
    {
      hide Compress, Absorb, Loaded;
      ghost var h := Value();
      ghost var data := input[off..off + len];
      ghost var n := 0;
      var end := off + len;
      ptr := off;
      AbsorbNone(h);
      assert data[..0] == [];
      while end - ptr >= BLOCK
        invariant ptr == off + BLOCK * n && ptr <= end
        invariant Value() == Absorb(h, data[..BLOCK * n])
      {
        assert input[ptr..ptr + BLOCK] == data[BLOCK * n..BLOCK * n + BLOCK];
        AbsorbNext(h, data, BLOCK * n);
        Proc(input, ptr);
        ptr := ptr + BLOCK;
        n := n + 1;
      }
      assert input[off..ptr] == data[..BLOCK * n];
    }

    // The loop and then the tail, padded for prev bytes more than the input has.
    method HashRest(input: array<byte>, off: nat, len: nat, prev: nat)
      requires Valid() && off + len <= input.Length && prev % BLOCK == 0
      modifies H, W
      ensures Value() == Absorb(old(Value()), old(input[off..off + len]) + Padding(prev + len))
    {
      hide Compress, Absorb, LastBlocks, Padding, Loaded;
      ghost var data := input[off..off + len];
      var ptr := ProcWhole(input, off, len);
      assert input[off..ptr] == data[..ptr - off];
      var left := off + len - ptr;
      assert left % BLOCK == left && (prev + len) % BLOCK == len % BLOCK == left;
      assert input[ptr..ptr + left] == data[ptr - off..];
      RestIsLast(old(Value()), data, ptr - off, prev + len);
      Last(input, ptr, left, prev + len);
    }
  }

  lemma FiveWords(s: Digest, h: Hash)
    requires s[0..4] == Unpack(h.a) && s[4..8] == Unpack(h.b) && s[8..12] == Unpack(h.c)
    requires s[12..16] == Unpack(h.d) && s[16..20] == Unpack(h.e)
    ensures s == Output(h)
  {
    hide Unpack;
    assert s == s[0..4] + s[4..8] + s[8..12] + s[12..16] + s[16..20];
  }
}

/** One-shot SHA-1, HMAC and PBKDF2 over caller's buffers (crypto/sha1_hash.c,
    crypto/sha1_hmac.c, crypto/pbkdf2_sha1.c). */
module HmacBuffers {
  import opened Bytes
  import opened Sha1Spec
  import opened Sha1Context

  // sha1 (crypto/sha1_hash.c:3-20)
  method HashInto(out: array<byte>, at: nat, input: array<byte>, off: nat, len: nat)
    requires at + DIGEST <= out.Length && off + len <= input.Length
    modifies out
    ensures out[at..at + DIGEST] == Sha1(old(input[off..off + len]))
    ensures forall k :: 0 <= k < out.Length && !(at <= k < at + DIGEST) ==> out[k] == old(out[k])
  {
    hide Absorb, Padding, Output;
    var sh := new Context();
    sh.Init();
    sh.HashRest(input, off, len, 0);
    sh.Fini(out, at);
  }

  // The key bytes hmac_sha1 uses: a negative length is taken as 0, one above 64 as
  // 64 (crypto/sha1_hmac.c:33-36).
  function KeyLength(klen: int): nat { if klen < 0 then 0 else if klen > BLOCK then BLOCK else klen }

  // memcpy, memset and hmac_xor on the pad (crypto/sha1_hmac.c:6-10, 38-40).
  method FillPad(pad: array<byte>, key: Key, v: byte)
    requires pad.Length == BLOCK
    modifies pad
    ensures pad[..] == KeyPad(key, v)
  {
    hide XorByte;
    forall k | 0 <= k < |key| { pad[k] := key[k]; }
    forall k | |key| <= k < BLOCK { pad[k] := 0; }
    for i := 0 to BLOCK
      invariant forall k :: 0 <= k < i ==> pad[k] == KeyPad(key, v)[k]
      invariant forall k :: i <= k < BLOCK ==> pad[k] == if k < |key| then key[k] else 0
    {
      pad[i] := XorByte(pad[i], v);
    }
  }

  // The two hash passes of hmac_sha1: pad block, then the data
  // (crypto/sha1_hmac.c:38-45 and 47-54).
  method InnerPass(hash: array<byte>, k: Key, input: array<byte>, off: nat, inlen: nat)
    requires hash.Length == DIGEST && off + inlen <= input.Length && hash != input
    modifies hash
    ensures hash[..] == Sha1(KeyPad(k, 0x36) + old(input[off..off + inlen]))
  {
    hide KeyPad, Absorb, Compress, Padding, LastBlocks, Output, Sha1, INITIAL;
    var pad := new byte[BLOCK];
    var sh := new Context();
    FillPad(pad, k, 0x36);
    sh.Init();
    sh.Proc(pad, 0);
    assert pad[0..BLOCK] == pad[..];
    sh.HashRest(input, off, inlen, BLOCK);
    PadThenRest(KeyPad(k, 0x36), input[off..off + inlen]);
    sh.Fini(hash, 0);
    assert hash[0..DIGEST] == hash[..];
  }

  method OuterPass(out: array<byte>, at: nat, k: Key, hash: array<byte>)
    requires hash.Length == DIGEST && at + DIGEST <= out.Length && out != hash
    modifies out
    ensures out[at..at + DIGEST] == Sha1(KeyPad(k, 0x5c) + hash[..])
    ensures forall k :: 0 <= k < out.Length && !(at <= k < at + DIGEST) ==> out[k] == old(out[k])
  {
    hide KeyPad, Absorb, Compress, Padding, LastBlocks, Output, Sha1, INITIAL;
    var pad := new byte[BLOCK];
    var sh := new Context();
    FillPad(pad, k, 0x5c);
    sh.Init();
    sh.Proc(pad, 0);
    assert pad[0..BLOCK] == pad[..];
    assert hash[0..0 + DIGEST % BLOCK] == hash[..];
    LastBlocksArePadding(hash[..], BLOCK + DIGEST);
    sh.Last(hash, 0, DIGEST, BLOCK + DIGEST);
    PadThenRest(KeyPad(k, 0x5c), hash[..]);
    sh.Fini(out, at);
  }

  // hmac_sha1 (crypto/sha1_hmac.c:26-55). The output may overlap the input.
  method HmacInto(out: array<byte>, at: nat, key: seq<byte>, klen: int, input: array<byte>, off: nat, inlen: nat)
    requires at + DIGEST <= out.Length && off + inlen <= input.Length
    requires KeyLength(klen) <= |key|
    modifies out
    ensures out[at..at + DIGEST] == Hmac(key[..KeyLength(klen)], old(input[off..off + inlen]))
    ensures forall k :: 0 <= k < out.Length && !(at <= k < at + DIGEST) ==> out[k] == old(out[k])
  {
    hide KeyPad, Sha1;
    var k := key[..KeyLength(klen)];
    var hash := new byte[DIGEST];
    InnerPass(hash, k, input, off, inlen);
    OuterPass(out, at, k, hash);
  }

  // F1 (crypto/pbkdf2_sha1.c:20-35)
  method F1(u: array<byte>, pass: seq<byte>, pn: int, salt: seq<byte>, i: nat)
    requires u.Length == DIGEST && KeyLength(pn) <= |pass|
    modifies u
    ensures u[..] == U(pass[..KeyLength(pn)], salt, i, 1)
  {
    hide Hmac, Be32;
    var input := new byte[|salt| + 4];
    forall k | 0 <= k < |salt| { input[k] := salt[k]; }
    var be := Be32(i);
    forall k | 0 <= k < 4 { input[|salt| + k] := be[k]; }
    assert input[0..|salt| + 4] == salt + be;
    HmacInto(u, 0, pass, pn, input, 0, |salt| + 4);
    assert u[..] == u[0..DIGEST];
  }

  // Fc (crypto/pbkdf2_sha1.c:37-41): U is both the input and the output.
  method Fc(u: array<byte>, pass: seq<byte>, pn: int, ghost salt: seq<byte>, ghost i: nat, ghost c: nat)
    requires u.Length == DIGEST && KeyLength(pn) <= |pass| && c >= 1
    requires u[..] == U(pass[..KeyLength(pn)], salt, i, c)
    modifies u
    ensures u[..] == U(pass[..KeyLength(pn)], salt, i, c + 1)
  {
    hide Hmac, Be32;
    assert u[0..DIGEST] == u[..];
    HmacInto(u, 0, pass, pn, u, 0, DIGEST);
    assert u[0..DIGEST] == u[..];
  }

  // xorbuf (crypto/pbkdf2_sha1.c:43-47)
  method XorInto(t: array<byte>, at: nat, u: array<byte>)
    requires u.Length == DIGEST && at + DIGEST <= t.Length && t != u
    modifies t
    ensures t[at..at + DIGEST] == XorDigest(old(t[at..at + DIGEST]), u[..])
    ensures forall k :: 0 <= k < t.Length && !(at <= k < at + DIGEST) ==> t[k] == old(t[k])
  {
    hide XorByte;
    for i := 0 to DIGEST
      invariant forall k :: 0 <= k < i ==> t[at + k] == XorByte(old(t[at + k]), u[k])
      invariant forall k :: 0 <= k < t.Length && !(at <= k < at + i) ==> t[k] == old(t[k])
    {
      t[at + i] := XorByte(t[at + i], u[i]);
    }
  }

  // The iteration count F works with: its loop starts at 2, so any count below 1
  // behaves as 1.
  function Count(iters: int): nat { if iters < 1 then 1 else iters }

  // F (crypto/pbkdf2_sha1.c:49-60)
  method F(t: array<byte>, at: nat, pass: seq<byte>, pn: int, salt: seq<byte>, c: int, i: nat)
    requires at + DIGEST <= t.Length && KeyLength(pn) <= |pass|
    modifies t
    ensures t[at..at + DIGEST] == T(pass[..KeyLength(pn)], salt, i, Count(c))
    ensures forall k :: 0 <= k < t.Length && !(at <= k < at + DIGEST) ==> t[k] == old(t[k])
  {
    hide Hmac, Be32, XorDigest;
    ghost var p := pass[..KeyLength(pn)];
    var u := new byte[DIGEST];
    F1(u, pass, pn, salt, i);
    forall k | 0 <= k < DIGEST { t[at + k] := u[k]; }
    assert t[at..at + DIGEST] == u[..];
    var j := 2;
    while j <= c
      invariant 2 <= j && (c >= 1 ==> j <= c + 1) && (c < 1 ==> j == 2)
      invariant u[..] == U(p, salt, i, j - 1)
      invariant t[at..at + DIGEST] == T(p, salt, i, j - 1)
      invariant forall k :: 0 <= k < t.Length && !(at <= k < at + DIGEST) ==> t[k] == old(t[k])
    {
      Fc(u, pass, pn, salt, i, j - 1);
      XorInto(t, at, u);
      j := j + 1;
    }
  }

  // pbkdf2_sha1 (crypto/pbkdf2_sha1.c:62-80)
  method Pbkdf2Into(psk: array<byte>, len: nat, pass: seq<byte>, passlen: int, salt: seq<byte>, iters: int)
    requires len <= psk.Length && KeyLength(passlen) <= |pass|
    modifies psk
    ensures psk[..len] == Pbkdf2(pass[..KeyLength(passlen)], salt, Count(iters), len)
    ensures psk[len..] == old(psk[len..])
  {
    hide T;
    ghost var p := pass[..KeyLength(passlen)];
    ghost var c := Count(iters);
    var i := 1;
    while DIGEST * i <= len
      invariant i >= 1 && DIGEST * (i - 1) <= len
      invariant psk[..DIGEST * (i - 1)] == Blocks(p, salt, c, i - 1)
      invariant psk[len..] == old(psk[len..])
    {
      var at := DIGEST * (i - 1);
      F(psk, at, pass, passlen, salt, iters, i);
      assert psk[..at + DIGEST] == psk[..at] + psk[at..at + DIGEST];
      i := i + 1;
    }
    var at := DIGEST * (i - 1);
    if at < len {
      var t := new byte[DIGEST];
      F(t, 0, pass, passlen, salt, iters, i);
      forall k | 0 <= k < len - at { psk[at + k] := t[k]; }
      assert psk[..len] == psk[..at] + t[0..DIGEST][..len - at];
      assert (len + DIGEST - 1) / DIGEST == i;
    } else {
      assert (len + DIGEST - 1) / DIGEST == i - 1;
    }
  }
}

/** The EAPOL crypto helpers of wsupp_crypto.c: PRF480 and the frame MIC. The third,
    unwrap_key, is in KeyWrapBuffer. */
module WsuppCrypto {
  import opened Bytes
  import opened Sha1Spec
  import opened HmacBuffers
  import opened Seqs

  // R(i) of PRF-n (section 11.6.1.2 of IEEE 802.11-2012): HMAC of A | 0 | B | i.
  function PrfPart(key: Bytes32, str: seq<byte>, mac1: Bytes6, mac2: Bytes6,
                   nonce1: Bytes32, nonce2: Bytes32, i: byte): Digest {
    Hmac(key, str + [0] + mac1 + mac2 + nonce1 + nonce2 + [i])
  }

  function Prf480(key: Bytes32, str: seq<byte>, mac1: Bytes6, mac2: Bytes6,
                  nonce1: Bytes32, nonce2: Bytes32): (k: seq<byte>)
    ensures |k| == 60
  {
    PrfPart(key, str, mac1, mac2, nonce1, nonce2, 0) +
    PrfPart(key, str, mac1, mac2, nonce1, nonce2, 1) +
    PrfPart(key, str, mac1, mac2, nonce1, nonce2, 2)
  }

  // memadd (wsupp_crypto.c:10-14)
  method Append(buf: array<byte>, at: nat, src: seq<byte>) returns (next: nat)
    requires at + |src| <= buf.Length
    modifies buf
    ensures next == at + |src|
    ensures buf[..next] == old(buf[..at]) + src
  {
    Copy(buf, at, src);
    next := at + |src|;
    assert buf[..next] == buf[..at] + buf[at..next];
  }

  // PRF480 (wsupp_crypto.c:52-73). str has no zero bytes, so strlen is its size.
  method Prf480Into(out: array<byte>, key: Bytes32, str: seq<byte>, mac1: Bytes6, mac2: Bytes6,
                    nonce1: Bytes32, nonce2: Bytes32)
    requires out.Length == 60
    modifies out
    ensures out[..] == Prf480(key, str, mac1, mac2, nonce1, nonce2)
  {
    hide Hmac;
    var ilen := |str| + 1 + 2 * 6 + 2 * 32 + 1;
    var ibuf := new byte[ilen + 10];
    var p := Append(ibuf, 0, str + [0]);
    p := Append(ibuf, p, mac1);
    p := Append(ibuf, p, mac2);
    p := Append(ibuf, p, nonce1);
    p := Append(ibuf, p, nonce2);
    ghost var head := str + [0] + mac1 + mac2 + nonce1 + nonce2;
    assert ibuf[..p] == head;
    for i := 0 to 3
      invariant ibuf[..p] == head
      invariant forall j :: 0 <= j < i ==> out[20 * j..20 * j + 20] == Hmac(key, head + [j as byte])
    {
      ghost var before := out[..];
      PrfRound(out, i, key, ibuf, p, head);
      forall j | 0 <= j < i
        ensures out[20 * j..20 * j + 20] == Hmac(key, head + [j as byte])
      {
        assert out[20 * j..20 * j + 20] == before[20 * j..20 * j + 20];
      }
    }
    assert out[20 * 0..20] == Hmac(key, head + [0]);
    assert out[20 * 1..40] == Hmac(key, head + [1]);
    assert out[20 * 2..60] == Hmac(key, head + [2]);
    assert out[..] == out[0..20] + out[20..40] + out[40..60];
  }

  // One turn of the loop of PRF480.
  method PrfRound(out: array<byte>, i: nat, key: Bytes32, ibuf: array<byte>, p: nat, ghost head: seq<byte>)
    requires out.Length == 60 && i < 3 && p < ibuf.Length && ibuf != out && ibuf[..p] == head
    modifies out, ibuf
    ensures out[20 * i..20 * i + 20] == Hmac(key, head + [i as byte])
    ensures forall k :: 0 <= k < 60 && !(20 * i <= k < 20 * i + 20) ==> out[k] == old(out[k])
    ensures ibuf[..p] == head
  {
    hide Hmac;
    ibuf[p] := i as byte;
    assert ibuf[0..p + 1] == head + [i as byte];
    assert key[..KeyLength(32)] == key;
    HmacInto(out, i * 20, key, 32, ibuf, 0, p + 1);
  }

  // ---- The MIC of a key frame (section 11.6.3 of IEEE 802.11-2012) ----

  function Mic(kck: Bytes16, data: seq<byte>): Bytes16 { Hmac(kck, data)[..16] }

  // make_mic (wsupp_crypto.c:81-90); mic lies inside the data it covers.
  method MakeMic(buf: array<byte>, mic: nat, kck: Bytes16, len: nat)
    requires mic + 16 <= len <= buf.Length
    modifies buf
    ensures buf[mic..mic + 16] == Mic(kck, old(buf[..len]))
    ensures forall k :: 0 <= k < buf.Length && !(mic <= k < mic + 16) ==> buf[k] == old(buf[k])
  {
    hide Hmac;
    var hash := new byte[DIGEST];
    assert kck[..KeyLength(16)] == kck;
    HmacInto(hash, 0, kck, 16, buf, 0, len);
    assert buf[0..len] == buf[..len];
    Copy(buf, mic, hash[..16]);
    assert hash[..16] == hash[0..DIGEST][..16];
  }

  function WithMic(s: seq<byte>, at: nat, mic: Bytes16): (r: seq<byte>)
    requires at + 16 <= |s|
    ensures |r| == |s|
  {
    s[..at] + mic + s[at + 16..]
  }

  const NO_MIC: Bytes16 := Fill(16, 0)

  // check_mic (wsupp_crypto.c:92-107): the field is zeroed in place for the check
  // and stays zero.
  method CheckMic(buf: array<byte>, mic: nat, kck: Bytes16, len: nat) returns (ok: bool)
    requires mic + 16 <= len <= buf.Length
    modifies buf
    ensures buf[..len] == WithMic(old(buf[..len]), mic, NO_MIC)
    ensures buf[len..] == old(buf[len..])
    ensures ok <==> old(buf[mic..mic + 16]) == Mic(kck, WithMic(old(buf[..len]), mic, NO_MIC))
  {
    hide Hmac;
    var hash := new byte[DIGEST];
    var copy := buf[mic..mic + 16];
    forall k | 0 <= k < 16 { buf[mic + k] := 0; }
    assert buf[mic..mic + 16] == NO_MIC;
    assert buf[..len] == WithMic(old(buf[..len]), mic, NO_MIC);
    assert kck[..KeyLength(16)] == kck;
    HmacInto(hash, 0, kck, 16, buf, 0, len);
    assert buf[0..len] == buf[..len];
    assert hash[0..16] == hash[0..DIGEST][..16];
    var ret := CompareBytes(hash, 0, copy);
    ok := ret == 0;
  }

  // ---- memxcmp ----

  function Difference(a: byte, b: byte): bv32 { (a as bv32) - (b as bv32) }

  lemma OrOfDifferences(acc: bv32, a: byte, b: byte)
    ensures acc | Difference(a, b) == 0 <==> acc == 0 && a == b
  {
  }

  // memxcmp (wsupp_crypto.c:16-26): no early exit, zero exactly on equal contents.
  method CompareBytes(a: array<byte>, off: nat, b: seq<byte>) returns (ret: bv32)
    requires off + |b| <= a.Length
    ensures ret == 0 <==> a[off..off + |b|] == b
  {
    hide Difference;
    ret := 0;
    for k := 0 to |b|
      invariant ret == 0 <==> a[off..off + k] == b[..k]
    {
      OrOfDifferences(ret, a[off + k], b[k]);
      assert a[off..off + k + 1] == a[off..off + k] + [a[off + k]] && b[..k + 1] == b[..k] + [b[k]];
      ret := ret | Difference(a[off + k], b[k]);
    }
    assert b[..|b|] == b;
  }
}

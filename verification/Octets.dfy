/** Bytes as small integers, for the parts of the program that compute with values
    rather than with bits, and the little-endian fields of its packed structures. */
module Octets {
  type Octet = x: int | 0 <= x < 256

  function Le2(n: nat): (s: seq<Octet>)
    requires n < 0x10000
    ensures |s| == 2
  {
    [n % 0x100, n / 0x100]
  }

  function Le4(n: nat): (s: seq<Octet>)
    requires n < 0x1_0000_0000
    ensures |s| == 4
  {
    var a := n / 0x100;
    var b := a / 0x100;
    [n % 0x100, a % 0x100, b % 0x100, b / 0x100]
  }

  const WORD := 0x1_0000_0000

  // A 32-bit int, of either sign.
  function Int4(v: int): (s: seq<Octet>)
    ensures |s| == 4
  {
    Le4(v % WORD)
  }

  function Read2(s: seq<Octet>, p: nat): (n: nat)
    requires p + 2 <= |s|
    ensures n < 0x10000
  {
    s[p] as int + s[p + 1] as int * 0x100
  }

  function Read4(s: seq<Octet>, p: nat): (n: nat)
    requires p + 4 <= |s|
    ensures n < 0x1_0000_0000
  {
    s[p] as int + s[p + 1] as int * 0x100 + s[p + 2] as int * 0x10000 + s[p + 3] as int * 0x1000000
  }

  lemma ReadsBack2(s: seq<Octet>, p: nat, n: nat)
    requires n < 0x10000 && p + 2 <= |s| && s[p..p + 2] == Le2(n)
    ensures Read2(s, p) == n
  {
    assert s[p] == s[p..p + 2][0] && s[p + 1] == s[p..p + 2][1];
  }

  lemma FourDigits(n: nat)
    requires n < 0x1_0000_0000
    ensures var t := Le4(n);
      t[0] as int + t[1] as int * 0x100 + t[2] as int * 0x10000 + t[3] as int * 0x1000000 == n
  {
    var a := n / 0x100;
    var b := a / 0x100;
    assert n == a * 0x100 + n % 0x100 && a == b * 0x100 + a % 0x100 && b == b / 0x100 * 0x100 + b % 0x100;
  }

  lemma ReadsBack4(s: seq<Octet>, p: nat, n: nat)
    requires n < 0x1_0000_0000 && p + 4 <= |s| && s[p..p + 4] == Le4(n)
    ensures Read4(s, p) == n
  {
    var t := s[p..p + 4];
    assert s[p] == t[0] && s[p + 1] == t[1] && s[p + 2] == t[2] && s[p + 3] == t[3];
    FourDigits(n);
  }

  // The bytes from n to the next multiple of four.
  function Pad(n: nat): (p: nat)
    ensures p < 4 && (n + p) % 4 == 0
  {
    (4 - n % 4) % 4
  }
}

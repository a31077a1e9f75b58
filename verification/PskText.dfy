/** The text of the PSK file (wsupp_config.c:15-24) as lines of fields: escaping,
    tokenising, look-up and the three edits, and the proof that the edits are those of
    a finite map from escaped SSIDs to PSKs. */
module PskText {
  import opened Octets
  import opened Wrappers
  import opened Seqs

  const NEWLINE: Octet := 10
  const TAB: Octet := 9
  const SPACE: Octet := 32
  const BACKSLASH: Octet := 92
  const LETTER_X: Octet := 120

  predicate IsSpace(c: Octet) { c == SPACE || c == TAB || c == NEWLINE }

  // ---- Lines ----

  predicate IsLine(l: seq<Octet>) { forall k :: 0 <= k < |l| ==> l[k] != NEWLINE }

  ghost predicate AreLines(ls: seq<seq<Octet>>) { forall k :: 0 <= k < |ls| ==> IsLine(ls[k]) }

  // Each line followed by a newline.
  function Join(ls: seq<seq<Octet>>): seq<Octet> {
    if ls == [] then [] else ls[0] + [NEWLINE] + Join(ls[1..])
  }

  predicate Terminated(t: seq<Octet>) { t == [] || t[|t| - 1] == NEWLINE }

  // Where the first line of t ends.
  function LineEnd(t: seq<Octet>): (n: nat)
    ensures n <= |t| && (n < |t| ==> t[n] == NEWLINE)
    ensures forall k :: 0 <= k < n ==> t[k] != NEWLINE
  {
    if t == [] || t[0] == NEWLINE then 0 else 1 + LineEnd(t[1..])
  }

  function Lines(t: seq<Octet>): seq<seq<Octet>> {
    if t == [] then []
    else
      var n := LineEnd(t);
      [t[..n]] + if n < |t| then Lines(t[n + 1..]) else []
  }

  lemma JoinFirst(l: seq<Octet>, ls: seq<seq<Octet>>)
    ensures Join([l] + ls) == l + [NEWLINE] + Join(ls)
  {
    assert ([l] + ls)[1..] == ls;
  }

  lemma JoinNone()
    ensures Join([]) == []
  {
  }

  lemma FirstEnds(t: seq<Octet>)
    requires t != [] && Terminated(t)
    ensures LineEnd(t) < |t| && Terminated(t[LineEnd(t) + 1..])
  {
    hide LineEnd;
    var rest := t[LineEnd(t) + 1..];
    if rest != [] { assert rest[|rest| - 1] == t[|t| - 1]; }
  }

  lemma LinesFirst(t: seq<Octet>)
    requires t != [] && Terminated(t)
    ensures LineEnd(t) < |t| && Terminated(t[LineEnd(t) + 1..])
    ensures Lines(t) == [t[..LineEnd(t)]] + Lines(t[LineEnd(t) + 1..])
  {
    hide LineEnd, Terminated;
    FirstEnds(t);
  }

  lemma {:induction false} JoinLines(t: seq<Octet>)
    requires Terminated(t)
    ensures Join(Lines(t)) == t
    decreases |t|
  {
    if t == [] {
      JoinNone();
    } else {
      hide Lines, Join, LineEnd, Terminated;
      var n := LineEnd(t);
      LinesFirst(t);
      var rest := t[n + 1..];
      JoinLines(rest);
      JoinFirst(t[..n], Lines(rest));
      AroundOne(t, n);
    }
  }

  lemma {:induction false} LinesAreLines(t: seq<Octet>)
    ensures AreLines(Lines(t))
    decreases |t|
  {
    if t != [] && LineEnd(t) < |t| {
      hide LineEnd;
      LinesAreLines(t[LineEnd(t) + 1..]);
    }
  }

  lemma {:induction false} FirstLineEnd(l: seq<Octet>, rest: seq<Octet>)
    requires IsLine(l)
    ensures LineEnd(l + [NEWLINE] + rest) == |l|
  {
    var t := l + [NEWLINE] + rest;
    if l != [] {
      FirstLineEnd(l[1..], rest);
      assert t[1..] == l[1..] + [NEWLINE] + rest;
      assert t[0] == l[0];
    }
  }

  lemma LinesOfFirst(l: seq<Octet>, rest: seq<Octet>)
    requires IsLine(l)
    ensures Lines(l + [NEWLINE] + rest) == [l] + Lines(rest)
  {
    hide LineEnd;
    FirstLineEnd(l, rest);
    var t := l + [NEWLINE] + rest;
    assert t[..|l|] == l && t[|l| + 1..] == rest;
  }

  lemma {:induction false} JoinIsTerminated(ls: seq<seq<Octet>>)
    ensures Terminated(Join(ls))
  {
    if ls != [] {
      JoinIsTerminated(ls[1..]);
    }
  }

  lemma {:induction false} LinesJoin(ls: seq<seq<Octet>>)
    requires AreLines(ls)
    ensures Lines(Join(ls)) == ls
  {
    if ls == [] {
      JoinNone();
    } else {
      hide Join, Lines;
      LinesJoin(ls[1..]);
      JoinFirst(ls[0], ls[1..]);
      LinesOfFirst(ls[0], Join(ls[1..]));
      assert ls == [ls[0]] + ls[1..];
    }
  }

  lemma {:induction false} JoinConcat(a: seq<seq<Octet>>, b: seq<seq<Octet>>)
    ensures Join(a + b) == Join(a) + Join(b)
  {
    if a == [] {
      assert a + b == b;
    } else {
      JoinConcat(a[1..], b);
      assert (a + b)[0] == a[0] && (a + b)[1..] == a[1..] + b;
      assert a[0] + [NEWLINE] + (Join(a[1..]) + Join(b)) == a[0] + [NEWLINE] + Join(a[1..]) + Join(b);
    }
  }

  // The text around line i.
  lemma JoinAround(ls: seq<seq<Octet>>, i: nat)
    requires i < |ls|
    ensures Join(ls) == Join(ls[..i]) + ls[i] + [NEWLINE] + Join(ls[i + 1..])
  {
    hide Join;
    SplitAt(ls, i);
    JoinConcat(ls[..i], ls[i..]);
    var rest := ls[i + 1..];
    JoinFirst(ls[i], rest);
    assert ls[i..] == [ls[i]] + rest;
    Regroup(Join(ls[..i]), ls[i] + [NEWLINE], Join(rest));
    Regroup(Join(ls[..i]), ls[i], [NEWLINE]);
  }

  // ---- Fields (skipsep, skiparg and split_line, wsupp_config.c:224-255) ----

  function SkipSep(l: seq<Octet>, p: nat): (q: nat)
    ensures p <= q && (p <= |l| ==> q <= |l|) && (q < |l| ==> !IsSpace(l[q]))
    decreases |l| - p
  {
    if p < |l| && IsSpace(l[p]) then SkipSep(l, p + 1) else p
  }

  // A backslash takes the next byte with it, even the newline that ends the line.
  function SkipArg(l: seq<Octet>, p: nat): (q: nat)
    ensures p <= q && (p <= |l| ==> q <= |l| + 1) && (p < |l| && !IsSpace(l[p]) ==> p < q)
    decreases |l| - p
  {
    if p >= |l| || IsSpace(l[p]) then p
    else if l[p] == BACKSLASH then SkipArg(l, p + 2)
    else SkipArg(l, p + 1)
  }

  // Start and end of at most n fields from p on.
  function Split(l: seq<Octet>, p: nat, n: nat): (cs: seq<(nat, nat)>)
    requires p <= |l| + 1
    ensures |cs| <= n
    ensures forall c <- cs :: c.0 <= c.1 <= |l| + 1
    decreases |l| + 1 - p
  {
    var q := SkipSep(l, p);
    if q >= |l| || n == 0 then [] else [(q, SkipArg(l, q))] + Split(l, SkipArg(l, q), n - 1)
  }

  // Field k of a line, if it has that many.
  function Field(l: seq<Octet>, k: nat): Option<seq<Octet>> {
    var cs := Split(l, 0, k + 1);
    if |cs| <= k then None else Some((l + [NEWLINE])[cs[k].0..cs[k].1])
  }

  // The first line with a given field (find_line, wsupp_config.c:269-284).
  function Find(ls: seq<seq<Octet>>, k: nat, val: seq<Octet>): (i: nat)
    ensures i <= |ls|
    ensures i < |ls| ==> Field(ls[i], k) == Some(val)
    ensures forall j :: 0 <= j < i ==> Field(ls[j], k) != Some(val)
  {
    if ls == [] || Field(ls[0], k) == Some(val) then 0 else 1 + Find(ls[1..], k, val)
  }

  // ---- Escaped SSIDs (fmt_ssid, wsupp_config.c:286-310) ----

  function Digit(n: nat): Octet
    requires n < 16
  {
    if n < 10 then 48 + n else 55 + n
  }

  function HexPair(b: Octet): (s: seq<Octet>)
    ensures |s| == 2
  {
    [Digit(b / 16), Digit(b % 16)]
  }

  function EscapeByte(b: Octet): (s: seq<Octet>)
    ensures 1 <= |s| <= 4
  {
    if b == BACKSLASH then [BACKSLASH, BACKSLASH]
    else if b == SPACE then [BACKSLASH, SPACE]
    else if b <= 0x20 then [BACKSLASH, LETTER_X] + HexPair(b)
    else [b]
  }

  function Escape(s: seq<Octet>): seq<Octet> { if s == [] then [] else Escape(s[..|s| - 1]) + EscapeByte(s[|s| - 1]) }

  // How many bytes of s are written when writing stops at the first byte that would
  // start at offset room or later.
  function Written(s: seq<Octet>, room: nat): (n: nat)
    ensures n <= |s|
  {
    if s == [] then 0
    else
      var n := Written(s[..|s| - 1], room);
      if n == |s| - 1 && |Escape(s[..|s| - 1])| < room then |s| else n
  }

  function Formatted(s: seq<Octet>, room: nat): seq<Octet> { Escape(s[..Written(s, room)]) }

  const FIND_ROOM := 95   // buf[101] of find_ssid
  const SAVE_ROOM := 29   // what is left of buf[100] of save_psk after PSK and space

  // The name searched for, and the name saved.
  function SoughtName(ssid: seq<Octet>): seq<Octet> { Formatted(ssid, FIND_ROOM) }
  function SavedName(ssid: seq<Octet>): seq<Octet> { Formatted(ssid, SAVE_ROOM) }

  // ---- PSKs in hex ----

  function Hex(data: seq<Octet>): (s: seq<Octet>)
    ensures |s| == 2 * |data|
  {
    if data == [] then [] else Hex(data[..|data| - 1]) + HexPair(data[|data| - 1])
  }

  // The position of c in "0123456789ABCDEF", where strchr also finds the final zero.
  function DigitValue(c: Octet): Option<nat> {
    if 48 <= c <= 57 then Some(c - 48) else if 65 <= c <= 70 then Some(c - 55) else if c == 0 then Some(16) else None
  }

  function ParsePairs(s: seq<Octet>, n: nat): Option<seq<Octet>>
    requires 2 * n <= |s|
  {
    if n == 0 then Some([])
    else
      match (ParsePairs(s, n - 1), DigitValue(s[2 * n - 2]), DigitValue(s[2 * n - 1]))
      case (Some(head), Some(hh), Some(ll)) => Some(head + [(hh * 16 + ll) % 256])
      case _ => None
  }

  // parse_bytes (wsupp_config.c:402-421)
  function ParseBytes(s: seq<Octet>, n: nat): Option<seq<Octet>> {
    if |s| != 2 * n then None else ParsePairs(s, n)
  }

  type Psk = p: seq<Octet> | |p| == 32 witness [
    0, 0, 0, 0, 0, 0, 0, 0, 0, 0, 0, 0, 0, 0, 0, 0, 0, 0, 0, 0, 0, 0, 0, 0, 0, 0, 0, 0, 0, 0, 0, 0]

  const ZERO_PSK: Psk := [
    0, 0, 0, 0, 0, 0, 0, 0, 0, 0, 0, 0, 0, 0, 0, 0, 0, 0, 0, 0, 0, 0, 0, 0, 0, 0, 0, 0, 0, 0, 0, 0]

  // How many of the first n pairs come before one that is not hex.
  function Decodable(s: seq<Octet>, n: nat): (d: nat)
    requires 2 * n <= |s|
    ensures d <= n && ParsePairs(s, d).Some? && |ParsePairs(s, d).value| == d
    ensures d == n <==> ParsePairs(s, n).Some?
  {
    if n == 0 then 0
    else
      var d := Decodable(s, n - 1);
      if d == n - 1 && DigitValue(s[2 * n - 2]).Some? && DigitValue(s[2 * n - 1]).Some? then n else d
  }

  // What parse_bytes leaves in a buffer, whether it succeeds or not.
  function ParsedOver(s: seq<Octet>, was: seq<Octet>): (now: seq<Octet>)
    ensures |now| == |was|
    ensures ParseBytes(s, |was|).Some? ==> now == ParseBytes(s, |was|).value
  {
    if |s| != 2 * |was| then was
    else
      var d := Decodable(s, |was|);
      ParsePairs(s, d).value + was[d..]
  }

  // ---- The operations on lines ----

  function LoadLines(ls: seq<seq<Octet>>, ssid: seq<Octet>): Option<seq<Octet>> {
    var i := Find(ls, 1, SoughtName(ssid));
    if i == |ls| then None
    else match Field(ls[i], 0)
      case Some(f) => ParseBytes(f, 32)
      case None => None
  }

  // What load_psk returns: no line of the name, or a field that is not hex of the size.
  function LoadCode(ls: seq<seq<Octet>>, ssid: seq<Octet>): (c: Code)
    ensures c == Fine <==> LoadLines(ls, ssid).Some?
  {
    var i := Find(ls, 1, SoughtName(ssid));
    if i == |ls| then NoKey
    else match Field(ls[i], 0)
      case Some(f) => if ParseBytes(f, 32).Some? then Fine else Invalid
      case None => NoKey
  }

  // What load_psk leaves in the buffer of its caller.
  function LoadOver(ls: seq<seq<Octet>>, ssid: seq<Octet>, was: Psk): Psk {
    var i := Find(ls, 1, SoughtName(ssid));
    if i == |ls| then was
    else match Field(ls[i], 0)
      case Some(f) => ParsedOver(f, was)
      case None => was
  }

  function Entry(ssid: seq<Octet>, psk: Psk): seq<Octet> { Hex(psk) + [SPACE] + SavedName(ssid) }

  function SaveLines(ls: seq<seq<Octet>>, ssid: seq<Octet>, psk: Psk): seq<seq<Octet>> {
    var i := Find(ls, 1, SoughtName(ssid));
    if i == |ls| then ls + [Entry(ssid, psk)] else ls[i := Entry(ssid, psk)]
  }

  function DropLines(ls: seq<seq<Octet>>, ssid: seq<Octet>): seq<seq<Octet>> {
    var i := Find(ls, 1, SoughtName(ssid));
    if i == |ls| then ls else ls[..i] + ls[i + 1..]
  }
}

/** The PSK file is a finite map from escaped SSIDs to PSK fields: look-up, saving and
    dropping refine the map operations, and exactly when they do. */
module PskMap {
  import opened Octets
  import opened PskText
  import opened Wrappers
  import opened Seqs

  // ---- Hex ----

  lemma DigitRoundTrip(n: nat)
    requires n < 16
    ensures DigitValue(Digit(n)) == Some(n)
  {
  }

  lemma {:induction false} ParsePrefix(s: seq<Octet>, t: seq<Octet>, n: nat)
    requires 2 * n <= |s| <= |t| && s == t[..|s|]
    ensures ParsePairs(s, n) == ParsePairs(t, n)
  {
    if n > 0 {
      ParsePrefix(s, t, n - 1);
    }
  }

  lemma ParseStep(s: seq<Octet>, n: nat, head: seq<Octet>, b: Octet)
    requires 2 * n + 2 <= |s| && ParsePairs(s, n) == Some(head)
    requires s[2 * n] == Digit(b / 16) && s[2 * n + 1] == Digit(b % 16)
    ensures ParsePairs(s, n + 1) == Some(head + [b])
  {
    hide Digit, DigitValue;
    DigitRoundTrip(b / 16);
    DigitRoundTrip(b % 16);
    assert b / 16 * 16 + b % 16 == b;
  }

  lemma {:induction false} ParseOfHex(data: seq<Octet>)
    ensures ParsePairs(Hex(data), |data|) == Some(data)
  {
    if data != [] {
      hide Digit, ParsePairs, Hex;
      var n := |data| - 1;
      HexLast(data);
      ParseOfHex(data[..n]);
      ParsePrefix(Hex(data[..n]), Hex(data), n);
      ParseStep(Hex(data), n, data[..n], data[n]);
      assert data == data[..n] + [data[n]];
    } else {
      assert ParsePairs(Hex(data), 0) == Some([]);
    }
  }

  lemma HexLast(data: seq<Octet>)
    requires data != []
    ensures var n := |data| - 1;
      && Hex(data)[..2 * n] == Hex(data[..n])
      && Hex(data)[2 * n] == Digit(data[n] / 16) && Hex(data)[2 * n + 1] == Digit(data[n] % 16)
  {
    hide Digit;
  }

  // ---- Scanning what was written ----

  predicate Plain(c: Octet) { !IsSpace(c) && c != BACKSLASH }

  lemma {:induction false} HexIsPlain(data: seq<Octet>)
    ensures forall k :: 0 <= k < |Hex(data)| ==> Plain(Hex(data)[k])
  {
    if data != [] {
      HexIsPlain(data[..|data| - 1]);
    }
  }

  lemma {:induction false} ScanPlain(l: seq<Octet>, p: nat, q: nat)
    requires p <= q < |l| && IsSpace(l[q]) && forall k :: p <= k < q ==> Plain(l[k])
    ensures SkipArg(l, p) == q
    decreases q - p
  {
    if p < q {
      ScanPlain(l, p + 1, q);
    }
  }

  lemma EscapeLast(s: seq<Octet>)
    requires s != []
    ensures Escape(s) == Escape(s[..|s| - 1]) + EscapeByte(s[|s| - 1])
  {
  }

  lemma {:induction false} EscapeFront(s: seq<Octet>)
    requires s != []
    ensures Escape(s) == EscapeByte(s[0]) + Escape(s[1..])
  {
    hide EscapeByte;
    var n := |s| - 1;
    if n == 0 {
      assert s[..0] == [] && s[1..] == [];
    } else {
      hide Escape;
      EscapeFront(s[..n]);
      EscapeLast(s);
      EscapeLast(s[1..]);
      var mid := s[..n][1..];
      assert mid == s[1..][..n - 1] && s[1..][n - 1] == s[n];
      Regroup(EscapeByte(s[0]), Escape(mid), EscapeByte(s[n]));
    }
  }

  lemma PlainStep(l: seq<Octet>, p: nat)
    requires p < |l| && Plain(l[p])
    ensures SkipArg(l, p) == SkipArg(l, p + 1)
  {
  }

  lemma ScanByte(l: seq<Octet>, p: nat, b: Octet)
    requires p + |EscapeByte(b)| <= |l| && l[p..p + |EscapeByte(b)|] == EscapeByte(b)
    ensures SkipArg(l, p) == SkipArg(l, p + |EscapeByte(b)|)
  {
    var e := EscapeByte(b);
    assert forall k :: 0 <= k < |e| ==> l[p + k] == l[p..p + |e|][k] == e[k];
    if b == BACKSLASH || b == SPACE {
      assert l[p + 0] == BACKSLASH;
    } else if b <= 0x20 {
      assert l[p + 0] == BACKSLASH && l[p + 2] == Digit(b / 16) && l[p + 3] == Digit(b % 16);
      PlainStep(l, p + 2);
      PlainStep(l, p + 3);
    } else {
      assert l[p + 0] == b;
      PlainStep(l, p);
    }
  }

  lemma ScanAtEnd(head: seq<Octet>)
    ensures SkipArg(head + Escape([]), |head|) == |head + Escape([])|
  {
  }

  lemma ScanStep(head: seq<Octet>, b: Octet, rest: seq<Octet>)
    ensures SkipArg(head + (EscapeByte(b) + rest), |head|)
         == SkipArg((head + EscapeByte(b)) + rest, |head + EscapeByte(b)|)
  {
    hide SkipArg, EscapeByte;
    var e := EscapeByte(b);
    var l := (head + e) + rest;
    assert head + (e + rest) == l;
    assert l[|head|..|head| + |e|] == e;
    ScanByte(l, |head|, b);
  }

  // A name is one field: the scan runs to its end.
  lemma {:induction false} ScanEscape(head: seq<Octet>, s: seq<Octet>)
    ensures SkipArg(head + Escape(s), |head|) == |head + Escape(s)|
    decreases |s|
  {
    hide SkipArg, Escape, EscapeByte;
    if s == [] {
      ScanAtEnd(head);
    } else {
      EscapeFront(s);
      ScanStep(head, s[0], Escape(s[1..]));
      ScanEscape(head + EscapeByte(s[0]), s[1..]);
    }
  }

  lemma EscapeStartsField(s: seq<Octet>)
    requires s != []
    ensures Escape(s) != [] && !IsSpace(Escape(s)[0])
  {
    EscapeFront(s);
  }

  lemma {:induction false} EscapeIsLine(s: seq<Octet>)
    ensures IsLine(Escape(s))
  {
    if s != [] {
      EscapeIsLine(s[..|s| - 1]);
    }
  }

  // ---- The line that save_psk writes ----

  lemma WrittenSome(s: seq<Octet>, room: nat)
    requires s != [] && room > 0
    ensures Written(s, room) > 0
  {
    if |s| > 1 {
      WrittenSome(s[..|s| - 1], room);
    }
  }

  lemma EntryFields(ssid: seq<Octet>, psk: Psk)
    requires ssid != []
    ensures Field(Entry(ssid, psk), 0) == Some(Hex(psk))
    ensures Field(Entry(ssid, psk), 1) == Some(SavedName(ssid))
  {
    hide Hex, Escape, Written, SkipArg;
    var name := ssid[..Written(ssid, SAVE_ROOM)];
    var l := Entry(ssid, psk);
    WrittenSome(ssid, SAVE_ROOM);
    HexIsPlain(psk);
    assert forall k :: 0 <= k < 64 ==> l[k] == Hex(psk)[k];
    ScanPlain(l, 0, 64);
    EscapeStartsField(name);
    assert l[65] == Escape(name)[0];
    assert SkipSep(l, 64) == SkipSep(l, 65) == 65;
    assert l[65..] == Escape(name);
    ScanEscape(Hex(psk) + [SPACE], name);
    assert SkipSep(l, 0) == 0;
    assert SkipSep(l, |l|) == |l|;
    TwoFields(l, 64, 65);
    assert (l + [NEWLINE])[0..64] == Hex(psk);
    assert (l + [NEWLINE])[65..|l|] == Escape(name);
  }

  lemma TwoFields(l: seq<Octet>, e0: nat, s1: nat)
    requires 0 < e0 <= s1 < |l| && SkipSep(l, 0) == 0 && SkipArg(l, 0) == e0
    requires SkipSep(l, e0) == s1 && SkipArg(l, s1) == |l|
    ensures Split(l, 0, 1) == [(0, e0)]
    ensures Split(l, 0, 2) == [(0, e0), (s1, |l|)]
  {
    hide SkipSep, SkipArg;
    assert Split(l, |l|, 0) == [];
    assert Split(l, s1, 0) == [];
    assert Split(l, e0, 1) == [(s1, |l|)];
  }

  // A line for the empty SSID has no name, so it can never be found again.
  lemma EmptyEntryHasNoName(psk: Psk)
    ensures Field(Entry([], psk), 1) == None
  {
    hide Hex, SkipArg;
    var l := Entry([], psk);
    HexIsPlain(psk);
    assert Formatted([], SAVE_ROOM) == [];
    assert forall k :: 0 <= k < 64 ==> l[k] == Hex(psk)[k];
    ScanPlain(l, 0, 64);
    assert SkipSep(l, 0) == 0;
    assert SkipSep(l, 64) == SkipSep(l, 65) == 65;
    assert Split(l, 64, 1) == [];
  }

  lemma EntryIsLine(ssid: seq<Octet>, psk: Psk)
    ensures IsLine(Entry(ssid, psk))
  {
    hide Hex, Escape;
    HexIsPlain(psk);
    EscapeIsLine(ssid[..Written(ssid, SAVE_ROOM)]);
  }

  // ---- When the saved name is the one searched for ----

  // The whole name is written when its last byte still starts within the room.
  predicate Fits(ssid: seq<Octet>) { ssid == [] || |Escape(ssid[..|ssid| - 1])| < SAVE_ROOM }

  lemma {:induction false} EscapeGrows(s: seq<Octet>, n: nat)
    requires n <= |s|
    ensures |Escape(s[..n])| + (|s| - n) <= |Escape(s)|
  {
    if n < |s| {
      EscapeGrows(s[..|s| - 1], n);
      assert s[..|s| - 1][..n] == s[..n];
    } else {
      assert s[..n] == s;
    }
  }

  lemma {:induction false} WrittenWhole(s: seq<Octet>, room: nat)
    ensures Written(s, room) == |s| <==> s == [] || |Escape(s[..|s| - 1])| < room
  {
    if s != [] {
      var init := s[..|s| - 1];
      WrittenWhole(init, room);
      if init != [] {
        EscapeGrows(init, |init| - 1);
      }
    }
  }

  // Writing stops only when the room is used up, and one byte takes at most four.
  lemma {:induction false} WrittenSize(s: seq<Octet>, room: nat)
    requires room > 0
    ensures |Formatted(s, room)| < room + 4
    ensures Written(s, room) < |s| ==> |Formatted(s, room)| >= room
  {
    if s != [] {
      hide EscapeByte;
      var init := s[..|s| - 1];
      WrittenSize(init, room);
      var n := Written(s, room);
      if n == |s| {
        assert s[..n] == s;
      } else {
        assert s[..n] == init[..n];
        assert n == |init| ==> init[..n] == init;
      }
    }
  }

  lemma FitsIsSameName(ssid: seq<Octet>)
    ensures Fits(ssid) <==> SavedName(ssid) == SoughtName(ssid)
    ensures Fits(ssid) ==> SavedName(ssid) == Escape(ssid)
  {
    hide Escape, Written;
    WrittenWhole(ssid, SAVE_ROOM);
    WrittenWhole(ssid, FIND_ROOM);
    if Fits(ssid) {
      assert ssid[..|ssid|] == ssid;
    } else {
      WrittenSize(ssid, SAVE_ROOM);
      WrittenSize(ssid, FIND_ROOM);
      if Written(ssid, FIND_ROOM) == |ssid| {
        EscapeGrows(ssid, Written(ssid, SAVE_ROOM));
        assert ssid[..|ssid|] == ssid;
      }
    }
  }

  // ---- Different SSIDs have different names ----

  lemma EscapeByteInjective(a: Octet, b: Octet, x: seq<Octet>, y: seq<Octet>)
    requires EscapeByte(a) + x == EscapeByte(b) + y
    ensures a == b
  {
    var s, t := EscapeByte(a) + x, EscapeByte(b) + y;
    assert forall k :: 0 <= k < |EscapeByte(a)| ==> s[k] == EscapeByte(a)[k];
    assert forall k :: 0 <= k < |EscapeByte(b)| ==> t[k] == EscapeByte(b)[k];
    assert s[0] == t[0];
    if s[0] == BACKSLASH {
      assert s[1] == t[1];
      if s[1] == LETTER_X {
        assert s[2] == Digit(a / 16) && t[2] == Digit(b / 16) && s[3] == Digit(a % 16) && t[3] == Digit(b % 16);
        DigitRoundTrip(a / 16);
        DigitRoundTrip(b / 16);
        DigitRoundTrip(a % 16);
        DigitRoundTrip(b % 16);
      }
    }
  }

  lemma {:induction false} EscapeInjective(s: seq<Octet>, t: seq<Octet>)
    requires Escape(s) == Escape(t)
    ensures s == t
  {
    if s == [] || t == [] {
      if s != [] { EscapeStartsField(s); }
      if t != [] { EscapeStartsField(t); }
    } else {
      hide EscapeByte, Escape;
      EscapeFront(s);
      EscapeFront(t);
      EscapeByteInjective(s[0], t[0], Escape(s[1..]), Escape(t[1..]));
      assert Escape(s)[|EscapeByte(s[0])|..] == Escape(s[1..]) && Escape(t)[|EscapeByte(t[0])|..] == Escape(t[1..]);
      EscapeInjective(s[1..], t[1..]);
      assert s == [s[0]] + s[1..] && t == [t[0]] + t[1..];
    }
  }

  // An SSID whose name is saved whole shares its name with no other.
  lemma NamesDiffer(a: seq<Octet>, b: seq<Octet>)
    requires Fits(a) && a != b
    ensures SoughtName(a) != SoughtName(b)
  {
    hide Escape, Written;
    FitsIsSameName(a);
    WrittenSize(a, SAVE_ROOM);
    WrittenSize(b, FIND_ROOM);
    if SoughtName(a) == SoughtName(b) {
      assert b[..Written(b, FIND_ROOM)] == b;
      EscapeInjective(a, b);
    }
  }

  // ---- The map ----

  type PskTable = map<seq<Octet>, seq<Octet>>

  lemma NamedHasPsk(l: seq<Octet>)
    requires Field(l, 1).Some?
    ensures Field(l, 0).Some?
  {
    hide SkipSep, SkipArg;
  }

  // Names to PSK fields; of two lines with one name the first counts.
  function Entries(ls: seq<seq<Octet>>): PskTable {
    if ls == [] then map[]
    else
      match Field(ls[0], 1)
      case None => Entries(ls[1..])
      case Some(name) =>
        NamedHasPsk(ls[0]);
        Entries(ls[1..])[name := Field(ls[0], 0).value]
  }

  lemma {:induction false} FindIsEntries(ls: seq<seq<Octet>>, name: seq<Octet>)
    ensures Find(ls, 1, name) < |ls| <==> name in Entries(ls)
    ensures name in Entries(ls) ==> Field(ls[Find(ls, 1, name)], 0) == Some(Entries(ls)[name])
  {
    if ls != [] {
      hide Field;
      FindIsEntries(ls[1..], name);
      if Field(ls[0], 1).Some? {
        NamedHasPsk(ls[0]);
      }
    }
  }

  lemma {:induction false} EntriesUpdate(ls: seq<seq<Octet>>, i: nat, name: seq<Octet>, l: seq<Octet>, v: seq<Octet>)
    requires i == Find(ls, 1, name) < |ls| && Field(l, 1) == Some(name) && Field(l, 0) == Some(v)
    ensures Entries(ls[i := l]) == Entries(ls)[name := v]
    decreases i
  {
    hide Field;
    if i == 0 {
      assert ls[0 := l][1..] == ls[1..];
    } else {
      EntriesUpdate(ls[1..], i - 1, name, l, v);
      assert ls[i := l][1..] == ls[1..][i - 1 := l];
    }
  }

  lemma {:induction false} EntriesAppend(ls: seq<seq<Octet>>, name: seq<Octet>, l: seq<Octet>, v: seq<Octet>)
    requires name !in Entries(ls) && Field(l, 1) == Some(name) && Field(l, 0) == Some(v)
    ensures Entries(ls + [l]) == Entries(ls)[name := v]
  {
    hide Field;
    if ls == [] {
      assert (ls + [l])[1..] == [];
    } else {
      EntriesAppend(ls[1..], name, l, v);
      assert (ls + [l])[1..] == ls[1..] + [l];
    }
  }

  // No name appears on two lines.
  ghost predicate Unique(ls: seq<seq<Octet>>) {
    forall i, j :: 0 <= i < j < |ls| && Field(ls[i], 1).Some? ==> Field(ls[i], 1) != Field(ls[j], 1)
  }

  lemma {:induction false} EntriesDrop(ls: seq<seq<Octet>>, i: nat, name: seq<Octet>)
    requires i == Find(ls, 1, name) < |ls|
    requires forall j :: i < j < |ls| ==> Field(ls[j], 1) != Some(name)
    ensures Entries(ls[..i] + ls[i + 1..]) == Entries(ls) - {name}
    decreases i
  {
    hide Field;
    if i == 0 {
      assert ls[..0] + ls[1..] == ls[1..];
      FindIsEntries(ls[1..], name);
    } else {
      EntriesDrop(ls[1..], i - 1, name);
      assert (ls[..i] + ls[i + 1..])[1..] == ls[1..][..i - 1] + ls[1..][i..];
    }
  }

  // ---- The operations refine those of the map ----

  // load_psk, got_psk_for
  lemma LoadRefines(ls: seq<seq<Octet>>, ssid: seq<Octet>)
    ensures LoadLines(ls, ssid)
         == if SoughtName(ssid) in Entries(ls) then ParseBytes(Entries(ls)[SoughtName(ssid)], 32) else None
  {
    hide Field, Formatted, ParseBytes;
    FindIsEntries(ls, SoughtName(ssid));
  }

  // save_psk, for every SSID it can write whole.
  lemma SaveRefines(ls: seq<seq<Octet>>, ssid: seq<Octet>, psk: Psk)
    requires ssid != [] && Fits(ssid)
    ensures Entries(SaveLines(ls, ssid, psk)) == Entries(ls)[SoughtName(ssid) := Hex(psk)]
    ensures Unique(ls) ==> Unique(SaveLines(ls, ssid, psk))
    ensures AreLines(ls) ==> AreLines(SaveLines(ls, ssid, psk))
  {
    hide Field, Formatted, Entry, Hex, Fits, IsLine;
    var name := SoughtName(ssid);
    var i := Find(ls, 1, name);
    EntryFields(ssid, psk);
    EntryIsLine(ssid, psk);
    FitsIsSameName(ssid);
    FindIsEntries(ls, name);
    if i < |ls| {
      EntriesUpdate(ls, i, name, Entry(ssid, psk), Hex(psk));
    } else {
      EntriesAppend(ls, name, Entry(ssid, psk), Hex(psk));
    }
  }

  // drop_psk
  lemma DropRefines(ls: seq<seq<Octet>>, ssid: seq<Octet>)
    requires Unique(ls)
    ensures Entries(DropLines(ls, ssid)) == Entries(ls) - {SoughtName(ssid)}
    ensures Unique(DropLines(ls, ssid))
    ensures AreLines(ls) ==> AreLines(DropLines(ls, ssid))
  {
    hide Field, Formatted, AreLines, Entries, Unique;
    var name := SoughtName(ssid);
    var i := Find(ls, 1, name);
    FindIsEntries(ls, name);
    if i < |ls| {
      OnlyOne(ls, i, name);
      EntriesDrop(ls, i, name);
      RemovalKeeps(ls, i);
    }
  }

  lemma OnlyOne(ls: seq<seq<Octet>>, i: nat, name: seq<Octet>)
    requires Unique(ls) && i < |ls| && Field(ls[i], 1) == Some(name)
    ensures forall j :: i < j < |ls| ==> Field(ls[j], 1) != Some(name)
  {
    hide Field;
  }

  lemma RemovalKeeps(ls: seq<seq<Octet>>, i: nat)
    requires Unique(ls) && i < |ls|
    ensures Unique(ls[..i] + ls[i + 1..])
    ensures AreLines(ls) ==> AreLines(ls[..i] + ls[i + 1..])
  {
    hide Field, IsLine;
    var r := ls[..i] + ls[i + 1..];
    forall k | 0 <= k < |r|
      ensures r[k] == ls[if k < i then k else k + 1]
    {
    }
  }
}

/** The PSK file in memory, edited in place (wsupp_config.c:187-489). Reading and
    writing the file, and growing the block it is mapped to, are not modelled. */
module PskFile {
  import opened Octets
  import opened PskText
  import opened PskMap
  import opened Wrappers
  import opened Seqs

  // struct line; NoLine is the pair of null pointers.
  datatype Line = NoLine | Line(start: nat, end: nat)

  // fmt_ssid (wsupp_config.c:286-310); e is where writing must stop short of.
  method FmtSsid(buf: array<Octet>, p0: nat, e: nat, ssid: seq<Octet>) returns (p: nat)
    requires p0 + 5 < e < buf.Length
    modifies buf
    ensures p0 <= p < buf.Length && buf[p0..p] == Formatted(ssid, e - 5 - p0)
    ensures forall k :: 0 <= k < p0 ==> buf[k] == old(buf[k])
  {
    hide Escape, EscapeByte;
    ghost var room := e - 5 - p0;
    p := p0;
    EscapeNone();
    for i := 0 to |ssid|
      invariant p0 <= p < e && buf[p0..p] == Escape(ssid[..i])
      invariant Written(ssid[..i], room) == i
      invariant forall k :: 0 <= k < p0 ==> buf[k] == old(buf[k])
    {
      assert ssid[..i + 1][..i] == ssid[..i];
      if p + 5 >= e {
        StopsHere(ssid, i, room);
        return;
      }
      EscapeMore(ssid, i);
      ghost var before := buf[p0..p];
      ghost var q := p;
      p := FmtByte(buf, p, ssid[i]);
      assert buf[p0..p] == before + buf[q..p];
    }
    assert ssid[..|ssid|] == ssid;
  }

  lemma EscapeNone()
    ensures Escape([]) == []
  {
  }

  lemma EscapeMore(s: seq<Octet>, i: nat)
    requires i < |s|
    ensures Escape(s[..i + 1]) == Escape(s[..i]) + EscapeByte(s[i])
  {
    assert s[..i + 1][..i] == s[..i];
  }

  // Once a byte does not fit, no later one is written either.
  lemma {:induction false} StopsHere(s: seq<Octet>, i: nat, room: nat)
    requires i < |s| && Written(s[..i], room) == i && |Escape(s[..i])| >= room
    ensures Written(s, room) == i
    decreases |s|
  {
    hide Escape;
    var init := s[..|s| - 1];
    if i == |s| - 1 {
    } else {
      assert init[..i] == s[..i];
      StopsHere(init, i, room);
    }
  }

  // One turn of the loop.
  method FmtByte(buf: array<Octet>, p: nat, b: Octet) returns (q: nat)
    requires p + 5 <= buf.Length
    modifies buf
    ensures q == p + |EscapeByte(b)| && buf[p..q] == EscapeByte(b)
    ensures forall k :: 0 <= k < p ==> buf[k] == old(buf[k])
  {
    if b == BACKSLASH {
      buf[p], buf[p + 1] := BACKSLASH, BACKSLASH;
      q := p + 2;
    } else if b == SPACE {
      buf[p], buf[p + 1] := BACKSLASH, SPACE;
      q := p + 2;
    } else if b <= 0x20 {
      buf[p], buf[p + 1] := BACKSLASH, LETTER_X;
      // snprintf writes a final zero too
      buf[p + 2], buf[p + 3], buf[p + 4] := Digit(b / 16), Digit(b % 16), 0;
      q := p + 4;
    } else {
      buf[p] := b;
      q := p + 1;
    }
  }

  // fmt_bytes (wsupp_config.c:442-456)
  method FmtBytes(buf: array<Octet>, data: seq<Octet>) returns (p: nat)
    requires 2 * |data| < buf.Length
    modifies buf
    ensures p == 2 * |data| && buf[..p] == Hex(data)
  {
    hide Digit;
    p := 0;
    for i := 0 to |data|
      invariant p == 2 * i && buf[..p] == Hex(data[..i])
    {
      assert data[..i + 1][..i] == data[..i];
      ghost var before := buf[..p];
      buf[p], buf[p + 1] := Digit(data[i] / 16), Digit(data[i] % 16);
      assert buf[..p + 2] == before + [buf[p], buf[p + 1]];
      p := p + 2;
    }
    assert data[..|data|] == data;
  }

  // parse_bytes (wsupp_config.c:402-421)
  method ParseInto(s: seq<Octet>, dst: array<Octet>) returns (ok: bool)
    modifies dst
    ensures ok <==> ParseBytes(s, dst.Length).Some?
    ensures ok ==> ParseBytes(s, dst.Length) == Some(dst[..])
    ensures dst[..] == ParsedOver(s, old(dst[..]))
  {
    hide DigitValue;
    if |s| != 2 * dst.Length { return false; }
    for i := 0 to dst.Length
      invariant ParsePairs(s, i) == Some(dst[..i]) && dst[i..] == old(dst[i..])
      invariant Decodable(s, i) == i
    {
      var hh, ll := DigitValue(s[2 * i]), DigitValue(s[2 * i + 1]);
      if hh == None || ll == None {
        NoParse(s, i, dst.Length);
        assert dst[..] == dst[..i] + old(dst[..])[i..];
        return false;
      }
      dst[i] := (hh.value * 16 + ll.value) % 256;
      assert dst[..i + 1] == dst[..i] + [dst[i]];
    }
    assert dst[..dst.Length] == dst[..];
    ok := true;
  }

  lemma {:induction false} NoParse(s: seq<Octet>, n: nat, m: nat)
    requires 2 * m <= |s| && n < m && Decodable(s, n) == n
    requires DigitValue(s[2 * n]) == None || DigitValue(s[2 * n + 1]) == None
    ensures Decodable(s, m) == n
  {
    if n + 1 < m {
      NoParse(s, n, m - 1);
    }
  }

  class Config {
    var config: array<Octet>   // the mapped block
    var datalen: nat
    var modified: bool

    ghost predicate Valid()
      reads this, config
    {
      datalen <= config.Length && Terminated(config[..datalen])
    }

    ghost function Text(): seq<Octet>
      requires Valid()
      reads this, config
    {
      config[..datalen]
    }

    ghost function Now(): seq<seq<Octet>>
      requires Valid()
      reads this, config
    {
      Lines(Text())
    }

    // mmap_config_buf and read_config_whole: a block with the file's text in front.
    constructor (block: array<Octet>, size: nat)
      requires size <= block.Length && Terminated(block[..size])
      ensures Valid() && config == block && Text() == block[..size] && !modified
    {
      config := block;
      datalen := size;
      modified := false;
    }

    // setline (wsupp_config.c:199-212); skipline is the loop.
    method SetLine(p: nat) returns (ln: Line)
      requires Valid()
      ensures ln == if p >= datalen then NoLine else Line(p, p + LineEnd(Text()[p..]))
    {
      hide Terminated;
      if p >= datalen { return NoLine; }
      var q := p;
      while q < datalen && config[q] != NEWLINE
        invariant p <= q <= datalen
        invariant LineEnd(Text()[p..]) == q - p + LineEnd(Text()[q..])
      {
        assert Text()[q..][1..] == Text()[q + 1..];
        q := q + 1;
      }
      ln := Line(p, q);
    }

    // skipsep and skiparg (wsupp_config.c:224-236) up to the end of the line.
    method SkipSepIn(ln: Line, p: nat) returns (q: nat)
      requires Valid() && ln.Line? && ln.start <= ln.end < datalen && ln.start <= p
      ensures q == ln.start + SkipSep(Text()[ln.start..ln.end], p - ln.start)
    {
      ghost var l := Text()[ln.start..ln.end];
      q := p;
      while q < ln.end && IsSpace(config[q])
        invariant p <= q
        invariant SkipSep(l, q - ln.start) == SkipSep(l, p - ln.start)
        decreases ln.end - q
      {
        assert l[q - ln.start] == config[q];
        q := q + 1;
      }
      assert q < ln.end ==> l[q - ln.start] == config[q];
    }

    method SkipArgIn(ln: Line, p: nat) returns (q: nat)
      requires Valid() && ln.Line? && ln.start <= ln.end < datalen && ln.start <= p
      ensures q == ln.start + SkipArg(Text()[ln.start..ln.end], p - ln.start)
    {
      ghost var l := Text()[ln.start..ln.end];
      q := p;
      while q < ln.end && !IsSpace(config[q])
        invariant p <= q
        invariant SkipArg(l, q - ln.start) == SkipArg(l, p - ln.start)
        decreases ln.end - q
      {
        assert l[q - ln.start] == config[q];
        if config[q] == BACKSLASH { q := q + 1; }
        q := q + 1;
      }
      assert q < ln.end ==> l[q - ln.start] == config[q];
    }

    // split_line (wsupp_config.c:238-255); the chunks are offsets from the line start.
    method SplitLine(ln: Line, nc: nat) returns (cs: seq<(nat, nat)>)
      requires Valid() && ln.Line? && ln.start <= ln.end < datalen
      ensures cs == Split(Text()[ln.start..ln.end], 0, nc)
    {
      hide SkipSep, SkipArg, Split;
      ghost var l := Text()[ln.start..ln.end];
      cs := [];
      var p := SkipSepIn(ln, ln.start);
      ghost var from: nat := 0;
      while p < ln.end && |cs| < nc
        invariant ln.start <= p && from <= |l| + 1 && |cs| <= nc
        invariant p == ln.start + SkipSep(l, from)
        invariant cs + Split(l, from, nc - |cs|) == Split(l, 0, nc)
        decreases nc - |cs|
      {
        var s := p;
        p := SkipArgIn(ln, p);
        SplitMore(l, from, nc - |cs|);
        cs := cs + [(s - ln.start, p - ln.start)];
        from := p - ln.start;
        p := SkipSepIn(ln, p);
      }
      SplitEnds(l, from, nc - |cs|);
    }

    // chunkeq (wsupp_config.c:262-267) on chunk i of a line, if there is one.
    method LineHas(ln: Line, i: nat, val: seq<Octet>) returns (b: bool)
      requires Valid() && ln.Line? && ln.start <= ln.end < datalen && config[ln.end] == NEWLINE
      ensures b <==> Field(Text()[ln.start..ln.end], i) == Some(val)
    {
      hide Split;
      ghost var l := Text()[ln.start..ln.end];
      var cs := SplitLine(ln, i + 1);
      if |cs| < i + 1 { return false; }
      var c := cs[i];
      assert cs[i] in cs;
      SliceOfSlice(config[..], 0, datalen, ln.start, ln.end);
      assert l + [NEWLINE] == config[ln.start..ln.end + 1];
      SliceOfSlice(config[..], ln.start, ln.end + 1, c.0, c.1);
      b := config[ln.start + c.0..ln.start + c.1] == val;
    }

    // find_line (wsupp_config.c:269-284), for field i of each line; chunkeq compares
    // one chunk with the wanted bytes.
    method FindLine(i: nat, val: seq<Octet>) returns (ln: Line)
      requires Valid()
      ensures ln == LineAt(Now(), Find(Now(), i, val))
    {
      hide Field, Lines, Find, Terminated, LineAt, LineEnd, Join;
      ghost var t := Text();
      ghost var ls := Now();
      ghost var k: nat := 0;
      FindFrom(ls, i, val, 0);
      SetLineAt(t, 0);
      ln := SetLine(0);
      while ln.Line?
        invariant k <= |ls| && ln == LineAt(ls, k)
        invariant Find(ls, i, val) == k + Find(ls[k..], i, val)
        decreases |ls| - k
      {
        LineIsAt(t, k);
        FindFrom(ls, i, val, k);
        var found := LineHas(ln, i, val);
        if found { return; }
        SetLineAt(t, k + 1);
        ln := SetLine(ln.end + 1);
        k := k + 1;
      }
      LineAtEnd(ls, k);
      FindFrom(ls, i, val, k);
    }

    // find_ssid (wsupp_config.c:312-322)
    method FindSsid(ssid: seq<Octet>) returns (ln: Line)
      requires Valid()
      ensures ln == LineAt(Now(), Find(Now(), 1, SoughtName(ssid)))
    {
      hide Find, Lines, Terminated, LineAt, Formatted;
      var buf := new Octet[3 * 32 + 5];
      var p := FmtSsid(buf, 0, buf.Length - 1, ssid);
      ln := FindLine(1, buf[0..p]);
    }

    // change_part (wsupp_config.c:324-343); the change must fit the block.
    method ChangePart(start: nat, end: nat, buf: seq<Octet>)
      requires start <= end <= datalen <= config.Length && datalen - (end - start) + |buf| <= config.Length
      modifies this, config
      ensures config == old(config) && modified && datalen == old(datalen) - (end - start) + |buf|
      ensures config[..datalen] == old(config[..start]) + buf + old(config[end..datalen])
    {
      var shift := |buf| - (end - start);
      var shlen := datalen - end;
      datalen := datalen + shift;
      Move(config, end + shift, end, shlen);
      ghost var tail := config[end + shift..datalen];
      Copy(config, start, buf);
      modified := true;
      Spliced(config[..], old(config[..]), start, start + |buf|, datalen, buf, tail);
    }

    // The same for a whole line.
    method ChangeLine(ln: Line, ghost k: nat, buf: seq<Octet>)
      requires Valid() && ln.Line? && ln == LineAt(Now(), k) && IsLine(buf)
      requires datalen - (ln.end - ln.start) + |buf| <= config.Length
      modifies this, config
      ensures Valid() && config == old(config) && modified
      ensures k < |old(Now())| && Now() == old(Now())[k := buf]
    {
      hide Lines, Terminated, LineAt;
      ghost var t := Text();
      LineIsAt(t, k);
      SliceOfSlice(config[..], 0, datalen, 0, ln.start);
      SliceOfSlice(config[..], 0, datalen, ln.end, datalen);
      ChangePart(ln.start, ln.end, buf);
      ReplaceLine(t, k, buf);
    }

    // insert_line (wsupp_config.c:345-354)
    method InsertLine(buf: seq<Octet>)
      requires Valid() && IsLine(buf) && datalen + |buf| + 1 <= config.Length
      modifies this, config
      ensures Valid() && config == old(config) && modified
      ensures Now() == old(Now()) + [buf]
    {
      hide Lines, Terminated;
      ghost var t := Text();
      var at := datalen;
      datalen := datalen + |buf| + 1;
      Copy(config, at, buf);
      config[at + |buf|] := NEWLINE;
      modified := true;
      assert config[..datalen] == t + buf + [NEWLINE] by {
        assert config[..at] == t;
        assert config[at..at + |buf|] == buf;
      }
      AppendLine(t, buf);
    }

    // drop_line (wsupp_config.c:356-373)
    method DropLine(ln: Line, ghost k: nat)
      requires Valid() && ln.Line? && ln == LineAt(Now(), k)
      modifies this, config
      ensures Valid() && config == old(config) && modified
      ensures k < |old(Now())| && Now() == old(Now())[..k] + old(Now())[k + 1..]
    {
      hide Lines, Terminated, LineAt;
      ghost var t := Text();
      LineIsAt(t, k);
      var shlen := datalen - ln.end - 1;
      datalen := datalen - (ln.end - ln.start + 1);
      Move(config, ln.start, ln.end + 1, shlen);
      modified := true;
      assert config[..datalen] == t[..ln.start] + t[ln.end + 1..] by {
        assert config[..ln.start] == t[..ln.start];
        assert config[ln.start..ln.start + shlen] == t[ln.end + 1..];
        assert config[..datalen] == config[..ln.start] + config[ln.start..ln.start + shlen];
      }
      RemoveLine(t, k);
    }

    // save_psk and save_line (wsupp_config.c:375-386, 458-474). The block has room for
    // one more line of the largest size the buffer allows.
    method SavePsk(ssid: seq<Octet>, psk: Psk)
      requires Valid() && datalen + 100 <= config.Length
      modifies this, config
      ensures Valid() && config == old(config) && modified
      ensures Now() == SaveLines(old(Now()), ssid, psk)
    {
      hide Find, Lines, Terminated, LineAt, Formatted, Hex, IsLine;
      var buf := new Octet[100];
      var p := FmtBytes(buf, psk);
      buf[p] := SPACE;
      assert buf[..p + 1] == Hex(psk) + [SPACE];
      var q := FmtSsid(buf, p + 1, buf.Length - 1, ssid);
      assert buf[..q] == buf[..p + 1] + buf[p + 1..q];
      assert buf[..q] == Entry(ssid, psk);
      EntryIsLine(ssid, psk);
      ghost var k := Find(Now(), 1, SoughtName(ssid));
      var ln := FindSsid(ssid);
      LineAtEnd(Now(), k);
      if ln.Line? {
        LineIsAt(Text(), k);
        ChangeLine(ln, k, buf[..q]);
      } else {
        InsertLine(buf[..q]);
      }
    }

    // load_psk (wsupp_config.c:423-440); psk is left half written when the field turns
    // out not to be hex.
    method LoadPsk(ssid: seq<Octet>, psk: array<Octet>) returns (err: Code)
      requires Valid() && psk.Length == 32 && psk != config
      modifies psk
      ensures err == LoadCode(Now(), ssid)
      ensures err == Fine ==> LoadLines(Now(), ssid) == Some(psk[..])
      ensures psk[..] == LoadOver(Now(), ssid, old(psk[..]))
    {
      hide Lines, Terminated, LineAt, Formatted, Split, ParseBytes, ParsedOver, Find;
      ghost var k := Find(Now(), 1, SoughtName(ssid));
      var ln := FindSsid(ssid);
      LineAtEnd(Now(), k);
      if ln.NoLine? { return NoKey; }
      LineIsAt(Text(), k);
      ghost var l := Now()[k];
      var cs := SplitLine(ln, 2);
      if |cs| < 2 { return NoKey; }
      FirstOfTwo(l);
      var c := cs[0];
      assert cs[0] in cs;
      assert l + [NEWLINE] == config[ln.start..ln.end + 1];
      assert (l + [NEWLINE])[c.0..c.1] == config[ln.start + c.0..ln.start + c.1];
      var ok := ParseInto(config[ln.start + c.0..ln.start + c.1], psk);
      err := if ok then Fine else Invalid;
    }

    // got_psk_for (wsupp_config.c:388-398)
    method GotPskFor(ssid: seq<Octet>) returns (got: bool)
      requires Valid()
      ensures got <==> SoughtName(ssid) in Entries(Now())
    {
      hide Find, Lines, Terminated, LineAt, Formatted, Entries;
      var ln := FindSsid(ssid);
      LineAtEnd(Now(), Find(Now(), 1, SoughtName(ssid)));
      FindIsEntries(Now(), SoughtName(ssid));
      got := ln.Line?;
    }

    // drop_psk (wsupp_config.c:476-489)
    method DropPsk(ssid: seq<Octet>) returns (found: bool)
      requires Valid()
      modifies this, config
      ensures Valid() && config == old(config)
      ensures Now() == DropLines(old(Now()), ssid)
      ensures found <==> SoughtName(ssid) in Entries(old(Now()))
      ensures !found ==> Now() == old(Now())
    {
      hide Find, Lines, Terminated, LineAt, Formatted, Entries;
      ghost var k := Find(Now(), 1, SoughtName(ssid));
      var ln := FindSsid(ssid);
      LineAtEnd(Now(), k);
      FindIsEntries(Now(), SoughtName(ssid));
      if ln.NoLine? { return false; }
      DropLine(ln, k);
      found := true;
    }
  }

  lemma Spliced(s: seq<Octet>, was: seq<Octet>, i: nat, j: nat, n: nat, mid: seq<Octet>, tail: seq<Octet>)
    requires i <= j <= n <= |s| == |was| && s[i..j] == mid && j - i == |mid| && n - j == |tail|
    requires forall k :: 0 <= k < i ==> s[k] == was[k]
    requires forall k :: j <= k < n ==> s[k] == tail[k - j]
    ensures s[..n] == was[..i] + mid + tail
  {
    ThreeParts(s, i, j, n);
    assert s[..i] == was[..i] && s[j..n] == tail;
  }

  // What the three edits of the text are as edits of its lines.
  lemma TextIsLines(t: seq<Octet>, ls: seq<seq<Octet>>)
    requires AreLines(ls) && t == Join(ls)
    ensures Terminated(t) && Lines(t) == ls
  {
    LinesJoin(ls);
    JoinIsTerminated(ls);
  }

  lemma ReplaceLine(t: seq<Octet>, k: nat, l: seq<Octet>)
    requires Terminated(t) && LineAt(Lines(t), k).Line? && IsLine(l)
    ensures k < |Lines(t)|
    ensures var ln := LineAt(Lines(t), k);
      ln.start <= ln.end <= |t| && var u := t[..ln.start] + l + t[ln.end..];
      Terminated(u) && Lines(u) == Lines(t)[k := l]
  {
    hide Terminated, Lines, Join;
    var ls := Lines(t);
    LineIsAt(t, k);
    JoinLines(t);
    LinesAreLines(t);
    JoinAround(ls, k);
    JoinAround(ls[k := l], k);
    assert ls[k := l][..k] == ls[..k] && ls[k := l][k + 1..] == ls[k + 1..];
    var head, tail := Join(ls[..k]), Join(ls[k + 1..]);
    assert t[..|head|] == head && t[|head| + |ls[k]|..] == [NEWLINE] + tail;
    assert head + l + ([NEWLINE] + tail) == head + l + [NEWLINE] + tail;
    TextIsLines(head + l + [NEWLINE] + tail, ls[k := l]);
  }

  lemma AppendLine(t: seq<Octet>, l: seq<Octet>)
    requires Terminated(t) && IsLine(l)
    ensures Terminated(t + l + [NEWLINE]) && Lines(t + l + [NEWLINE]) == Lines(t) + [l]
  {
    hide Terminated, Lines, Join;
    JoinLines(t);
    LinesAreLines(t);
    JoinConcat(Lines(t), [l]);
    JoinFirst(l, []);
    JoinNone();
    assert [l] + [] == [l];
    assert t + (l + [NEWLINE] + []) == t + l + [NEWLINE];
    TextIsLines(t + l + [NEWLINE], Lines(t) + [l]);
  }

  lemma RemoveLine(t: seq<Octet>, k: nat)
    requires Terminated(t) && LineAt(Lines(t), k).Line?
    ensures k < |Lines(t)|
    ensures var ln := LineAt(Lines(t), k);
      ln.start <= ln.end < |t| && var u := t[..ln.start] + t[ln.end + 1..];
      Terminated(u) && Lines(u) == Lines(t)[..k] + Lines(t)[k + 1..]
  {
    hide Terminated, Lines, Join;
    var ls := Lines(t);
    LineIsAt(t, k);
    JoinLines(t);
    LinesAreLines(t);
    JoinAround(ls, k);
    JoinConcat(ls[..k], ls[k + 1..]);
    var head, tail := Join(ls[..k]), Join(ls[k + 1..]);
    assert t == (head + ls[k] + [NEWLINE]) + tail;
    assert t[..|head|] == head && t[|head| + |ls[k]| + 1..] == tail;
    TextIsLines(head + tail, ls[..k] + ls[k + 1..]);
  }

  // Splitting a line in two fields finds the same first field as splitting off one.
  lemma FirstOfTwo(l: seq<Octet>)
    requires |Split(l, 0, 2)| == 2
    ensures |Split(l, 0, 1)| == 1 && Split(l, 0, 1)[0] == Split(l, 0, 2)[0]
  {
    hide SkipSep, SkipArg;
  }

  // Line k as a pair of offsets into the text.
  ghost function LineAt(ls: seq<seq<Octet>>, k: nat): Line {
    if k >= |ls| then NoLine else Line(|Join(ls[..k])|, |Join(ls[..k])| + |ls[k]|)
  }

  lemma LineAtEnd(ls: seq<seq<Octet>>, k: nat)
    ensures LineAt(ls, k) == NoLine <==> k >= |ls|
  {
  }

  lemma LineIsAt(t: seq<Octet>, k: nat)
    requires Terminated(t) && LineAt(Lines(t), k).Line?
    ensures k < |Lines(t)|
    ensures var ln := LineAt(Lines(t), k);
      && ln.start <= ln.end < |t| && t[ln.start..ln.end] == Lines(t)[k] && t[ln.end] == NEWLINE
      && ln.end + 1 == |Join(Lines(t)[..k + 1])|
  {
    hide Terminated, Lines, Join;
    var ls := Lines(t);
    JoinLines(t);
    JoinAround(ls, k);
    var head := Join(ls[..k]);
    assert t == head + (ls[k] + ([NEWLINE] + Join(ls[k + 1..])));
    assert ls[..k + 1] == ls[..k] + [ls[k]];
    JoinConcat(ls[..k], [ls[k]]);
    JoinFirst(ls[k], []);
    assert [ls[k]] + [] == [ls[k]];
    JoinNone();
  }

  lemma SetLineAt(t: seq<Octet>, k: nat)
    requires Terminated(t) && k <= |Lines(t)|
    ensures var p := |Join(Lines(t)[..k])|;
      p <= |t| && LineAt(Lines(t), k) == if p >= |t| then NoLine else Line(p, p + LineEnd(t[p..]))
    ensures k == 0 ==> |Join(Lines(t)[..k])| == 0
  {
    hide Terminated, Lines, Join;
    var ls := Lines(t);
    JoinLines(t);
    LinesAreLines(t);
    JoinNone();
    if k < |ls| {
      JoinAround(ls, k);
      var p := |Join(ls[..k])|;
      assert t[p..] == ls[k] + [NEWLINE] + Join(ls[k + 1..]);
      FirstLineEnd(ls[k], Join(ls[k + 1..]));
    } else {
      assert ls[..k] == ls;
    }
    if k == 0 {
      assert ls[..k] == [];
    }
  }

  lemma FindFrom(ls: seq<seq<Octet>>, i: nat, val: seq<Octet>, k: nat)
    requires k <= |ls|
    ensures k == 0 ==> ls[k..] == ls
    ensures Find(ls[k..], i, val)
         == if k == |ls| || Field(ls[k], i) == Some(val) then 0 else 1 + Find(ls[k + 1..], i, val)
  {
    if k < |ls| {
      assert ls[k..][1..] == ls[k + 1..];
    }
  }

  lemma SplitMore(l: seq<Octet>, p: nat, n: nat)
    requires p <= |l| + 1 && SkipSep(l, p) < |l| && n > 0
    ensures Split(l, p, n) == [(SkipSep(l, p), SkipArg(l, SkipSep(l, p)))] + Split(l, SkipArg(l, SkipSep(l, p)), n - 1)
  {
  }

  lemma SplitEnds(l: seq<Octet>, p: nat, n: nat)
    requires p <= |l| + 1 && (SkipSep(l, p) >= |l| || n == 0)
    ensures Split(l, p, n) == []
  {
  }
}

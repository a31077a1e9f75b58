/** What saving and dropping one SSID does to the PSK that every SSID loads, on any file at
    all: the exact effects of save_psk and drop_psk (wsupp_config.c:423-489), when an SSID
    answers for another, and when names stay unique. */
module PskEffects {
  import opened Octets
  import opened PskText
  import opened PskMap
  import opened Seqs
  import opened Wrappers

  lemma ParseHexPsk(psk: Psk)
    ensures ParseBytes(Hex(psk), 32) == Some(psk)
  {
    ParseOfHex(psk);
  }

  // ---- Finding a name in an edited file ----

  lemma {:induction false} SplitHasBytes(l: seq<Octet>, p: nat, n: nat)
    requires p <= |l| + 1
    ensures forall k :: 0 <= k < |Split(l, p, n)| ==> Split(l, p, n)[k].0 < Split(l, p, n)[k].1
    decreases n
  {
    var q := SkipSep(l, p);
    if q < |l| && n > 0 {
      SplitHasBytes(l, SkipArg(l, q), n - 1);
    }
  }

  lemma NoEmptyField(l: seq<Octet>, k: nat)
    ensures Field(l, k) != Some([])
  {
    hide SkipSep, SkipArg, Split;
    SplitHasBytes(l, 0, k + 1);
    var cs := Split(l, 0, k + 1);
    if |cs| > k {
      assert cs[k] in cs && cs[k].0 < cs[k].1 <= |l| + 1;
    }
  }

  // The empty SSID has no line in any file.
  lemma EmptyIsAbsent(ls: seq<seq<Octet>>)
    ensures SoughtName([]) == [] && Find(ls, 1, SoughtName([])) == |ls|
  {
    hide Field;
    var i := Find(ls, 1, []);
    if i < |ls| { NoEmptyField(ls[i], 1); }
  }

  lemma FindBehind(ls: seq<seq<Octet>>, name: seq<Octet>, i: nat)
    requires i < |ls| && forall k :: 0 <= k <= i ==> Field(ls[k], 1) != Some(name)
    ensures Find(ls, 1, name) == i + 1 + Find(ls[i + 1..], 1, name)
  {
    hide Field;
    var j, r := Find(ls, 1, name), Find(ls[i + 1..], 1, name);
    if r < |ls| - i - 1 { assert ls[i + 1..][r] == ls[i + 1 + r]; }
    if j < |ls| { assert j > i && ls[i + 1..][j - i - 1] == ls[j]; }
  }

  lemma LoadsBehind(ls: seq<seq<Octet>>, ssid: seq<Octet>, i: nat)
    requires i < |ls| && forall k :: 0 <= k <= i ==> Field(ls[k], 1) != Some(SoughtName(ssid))
    ensures LoadLines(ls, ssid) == LoadLines(ls[i + 1..], ssid)
  {
    hide Field, Formatted, ParseBytes;
    FindBehind(ls, SoughtName(ssid), i);
  }

  // ---- The exact effects ----

  // What an SSID loads once the line of the first of its name is gone.
  function LoadsNext(ls: seq<seq<Octet>>, ssid: seq<Octet>): Option<seq<Octet>> {
    var i := Find(ls, 1, SoughtName(ssid));
    if i == |ls| then None else LoadLines(ls[i + 1..], ssid)
  }

  lemma EntryLoads(ls: seq<seq<Octet>>, ssid: seq<Octet>, psk: Psk, other: seq<Octet>, i: nat)
    requires ssid != [] && SavedName(ssid) == SoughtName(other)
    requires i < |ls| && ls[i] == Entry(ssid, psk)
    requires forall k :: 0 <= k < i ==> Field(ls[k], 1) != Some(SoughtName(other))
    ensures LoadLines(ls, other) == Some(psk)
  {
    hide Field, Formatted, Entry, Hex, ParseBytes;
    EntryFields(ssid, psk);
    ParseHexPsk(psk);
    assert Find(ls, 1, SoughtName(other)) == i;
  }

  lemma SavedEntryIsOther(ssid: seq<Octet>, psk: Psk, other: seq<Octet>)
    requires ssid == [] || SavedName(ssid) != SoughtName(other)
    ensures Field(Entry(ssid, psk), 1) != Some(SoughtName(other))
  {
    hide Field, Formatted, Entry;
    if ssid == [] { EmptyEntryHasNoName(psk); } else { EntryFields(ssid, psk); }
  }

  // Saving one SSID, on any file: another SSID loads the PSK saved exactly when the name
  // written is its own and no line of its own comes before; an SSID that shares the name
  // looked for loses its first line; every other SSID loads what it did.
  lemma SaveEffect(ls: seq<seq<Octet>>, ssid: seq<Octet>, psk: Psk, other: seq<Octet>)
    ensures var i, j := Find(ls, 1, SoughtName(ssid)), Find(ls, 1, SoughtName(other));
      LoadLines(SaveLines(ls, ssid, psk), other)
        == if ssid != [] && SavedName(ssid) == SoughtName(other) && i <= j then Some(psk)
           else if SoughtName(other) == SoughtName(ssid) then LoadsNext(ls, other)
           else LoadLines(ls, other)
  {
    hide Field, Formatted, Entry, ParseBytes;
    var i, j := Find(ls, 1, SoughtName(ssid)), Find(ls, 1, SoughtName(other));
    var now := SaveLines(ls, ssid, psk);
    assert forall k :: 0 <= k < |ls| && k != i ==> now[k] == ls[k];
    if ssid != [] && SavedName(ssid) == SoughtName(other) && i <= j {
      EntryLoads(now, ssid, psk, other, i);
    } else {
      if ssid == [] { EmptyIsAbsent(ls); }
      if !(ssid != [] && SavedName(ssid) == SoughtName(other)) { SavedEntryIsOther(ssid, psk, other); }
      if SoughtName(other) == SoughtName(ssid) && i < |ls| {
        LoadsBehind(now, other, i);
        assert now[i + 1..] == ls[i + 1..];
      } else {
        assert Find(now, 1, SoughtName(other)) == if j == |ls| then |now| else j;
      }
    }
  }

  // Dropping one SSID, on any file: an SSID of the name dropped loads what the next line
  // of that name says, every other what it did.
  lemma DropEffect(ls: seq<seq<Octet>>, ssid: seq<Octet>, other: seq<Octet>)
    ensures LoadLines(DropLines(ls, ssid), other)
         == if SoughtName(other) == SoughtName(ssid) then LoadsNext(ls, other) else LoadLines(ls, other)
  {
    hide Field, Formatted, LoadLines, Find;
    var i := Find(ls, 1, SoughtName(ssid));
    if i == |ls| {
      AbsentLoadsNone(ls, ssid);
      AbsentLoadsNone(ls, other);
    } else {
      if SoughtName(other) == SoughtName(ssid) {
        WithoutFirst(ls, other, i);
      } else {
        WithoutAnother(ls, other, i, ls[..i] + ls[i + 1..]);
      }
    }
  }

  lemma AbsentLoadsNone(ls: seq<seq<Octet>>, ssid: seq<Octet>)
    ensures Find(ls, 1, SoughtName(ssid)) == |ls| ==> LoadLines(ls, ssid) == None
  {
    hide Field, Formatted, ParseBytes;
  }

  lemma WithoutAnother(ls: seq<seq<Octet>>, ssid: seq<Octet>, i: nat, now: seq<seq<Octet>>)
    requires i < |ls| && Field(ls[i], 1) != Some(SoughtName(ssid)) && now == ls[..i] + ls[i + 1..]
    ensures LoadLines(now, ssid) == LoadLines(ls, ssid)
  {
    hide Field, Formatted, ParseBytes;
    var j := Find(ls, 1, SoughtName(ssid));
    var m := if j < i then j else j - 1;
    forall k | 0 <= k < m
      ensures Field(now[k], 1) != Some(SoughtName(ssid))
    {
      assert now[k] == if k < i then ls[k] else ls[k + 1];
    }
    assert j < |ls| ==> now[m] == ls[j];
    assert Find(now, 1, SoughtName(ssid)) == m;
  }

  lemma WithoutFirst(ls: seq<seq<Octet>>, ssid: seq<Octet>, i: nat)
    requires i == Find(ls, 1, SoughtName(ssid)) < |ls|
    ensures LoadLines(ls[..i] + ls[i + 1..], ssid) == LoadLines(ls[i + 1..], ssid)
  {
    hide Field, Formatted, ParseBytes;
    var now := ls[..i] + ls[i + 1..];
    if i > 0 {
      LoadsBehind(now, ssid, i - 1);
      assert now[i..] == ls[i + 1..];
    } else {
      assert now == ls[i + 1..];
    }
  }

  // ---- What a caller sees ----

  // On any file the first line of a name is the one that counts; with unique names there
  // is no second.
  lemma NextIsNone(ls: seq<seq<Octet>>, ssid: seq<Octet>)
    requires Unique(ls)
    ensures LoadsNext(ls, ssid) == None
  {
    hide Field, Formatted, ParseBytes;
    var name := SoughtName(ssid);
    var i := Find(ls, 1, name);
    if i < |ls| {
      var rest := ls[i + 1..];
      forall k | 0 <= k < |rest|
        ensures Field(rest[k], 1) != Some(name)
      {
        assert rest[k] == ls[i + 1 + k];
      }
    }
  }

  // In a file without duplicate names, a saved PSK is loaded back exactly when the
  // SSID is not empty and its name fits the buffer save_psk writes it to.
  lemma SaveThenLoad(ls: seq<seq<Octet>>, ssid: seq<Octet>, psk: Psk)
    requires Unique(ls)
    ensures LoadLines(SaveLines(ls, ssid, psk), ssid) == Some(psk) <==> ssid != [] && Fits(ssid)
    ensures !(ssid != [] && Fits(ssid)) ==> LoadLines(SaveLines(ls, ssid, psk), ssid) == None
  {
    hide Formatted, LoadLines, Fits, Unique, LoadsNext;
    SaveEffect(ls, ssid, psk, ssid);
    FitsIsSameName(ssid);
    NextIsNone(ls, ssid);
  }

  // An SSID too long for the buffer: 30 plain letters.
  lemma LongSsidIsLost(ssid: seq<Octet>)
    requires |ssid| >= 30
    ensures !Fits(ssid)
  {
    EscapeGrows(ssid[..|ssid| - 1], 0);
  }

  // A dropped SSID is gone exactly when no second line bears its name.
  lemma DropThenLoad(ls: seq<seq<Octet>>, ssid: seq<Octet>)
    ensures LoadLines(DropLines(ls, ssid), ssid) == LoadsNext(ls, ssid)
    ensures Unique(ls) ==> LoadLines(DropLines(ls, ssid), ssid) == None
  {
    hide Formatted, LoadLines, Unique, LoadsNext;
    DropEffect(ls, ssid, ssid);
    if Unique(ls) { NextIsNone(ls, ssid); }
  }

  // An SSID that fits never touches another, on any file; nor does the empty one.
  lemma OthersKept(ls: seq<seq<Octet>>, ssid: seq<Octet>, psk: Psk, other: seq<Octet>)
    requires Fits(ssid) && other != ssid
    ensures LoadLines(SaveLines(ls, ssid, psk), other) == LoadLines(ls, other)
    ensures LoadLines(DropLines(ls, ssid), other) == LoadLines(ls, other)
  {
    hide Formatted, LoadLines, Fits, LoadsNext;
    NamesDiffer(ssid, other);
    FitsIsSameName(ssid);
    SaveEffect(ls, ssid, psk, other);
    DropEffect(ls, ssid, other);
  }

  lemma {:induction false} WrittenOfPrefix(s: seq<Octet>, room: nat)
    ensures Written(s[..Written(s, room)], room) == Written(s, room)
  {
    if s != [] {
      hide EscapeByte;
      var init := s[..|s| - 1];
      var n := Written(s, room);
      WrittenOfPrefix(init, room);
      if n == |s| { assert s[..n] == s; } else { assert s[..n] == init[..n]; }
    }
  }

  // What the saved name of a long SSID names: the SSID of the bytes that were written. The
  // PSK saved for the long SSID is then loaded for that one exactly when no line of its
  // own comes before the line rewritten or added, or says the same.
  lemma LongSsidAnswersForAnother(ls: seq<seq<Octet>>, ssid: seq<Octet>, psk: Psk, other: seq<Octet>)
    requires !Fits(ssid) && other == ssid[..Written(ssid, SAVE_ROOM)]
    ensures other != ssid && SavedName(ssid) == SoughtName(other)
    ensures LoadLines(SaveLines(ls, ssid, psk), other) == Some(psk)
        <==> Find(ls, 1, SoughtName(ssid)) <= Find(ls, 1, SoughtName(other)) || LoadLines(ls, other) == Some(psk)
    ensures LoadLines(SaveLines(ls, ssid, psk), other) == Some(psk)
         || LoadLines(SaveLines(ls, ssid, psk), other) == LoadLines(ls, other)
  {
    hide Field, LoadLines, Escape, Written, LoadsNext;
    WrittenOfPrefix(ssid, SAVE_ROOM);
    WrittenWhole(other, SAVE_ROOM);
    WrittenWhole(ssid, SAVE_ROOM);
    FitsIsSameName(other);
    FitsIsSameName(ssid);
    SaveEffect(ls, ssid, psk, other);
  }

  // ---- Unique names ----

  // A save keeps names unique exactly when no other line has the name it writes.
  lemma SaveKeepsUnique(ls: seq<seq<Octet>>, ssid: seq<Octet>, psk: Psk)
    requires Unique(ls)
    ensures var i := Find(ls, 1, SoughtName(ssid));
      Unique(SaveLines(ls, ssid, psk)) <==>
        ssid == [] || forall k :: 0 <= k < |ls| && k != i ==> Field(ls[k], 1) != Some(SavedName(ssid))
  {
    hide Field, Formatted, Entry;
    var i := Find(ls, 1, SoughtName(ssid));
    var now := SaveLines(ls, ssid, psk);
    assert now[i] == Entry(ssid, psk) && forall k :: 0 <= k < |ls| && k != i ==> now[k] == ls[k];
    if ssid == [] { EmptyEntryHasNoName(psk); } else { EntryFields(ssid, psk); }
  }

  // Two saves of one SSID that does not fit leave two lines of one name, and dropping the
  // SSID of that name leaves the PSK of the second save.
  lemma TwoSavesTwoLines(ls: seq<seq<Octet>>, ssid: seq<Octet>, p: Psk, q: Psk, other: seq<Octet>)
    requires !Fits(ssid) && other == ssid[..Written(ssid, SAVE_ROOM)]
    requires SoughtName(ssid) !in Entries(ls) && SoughtName(other) !in Entries(ls)
    ensures var now := SaveLines(SaveLines(ls, ssid, p), ssid, q);
      !Unique(now) && LoadLines(now, other) == Some(p) && LoadLines(DropLines(now, other), other) == Some(q)
  {
    hide Field, Formatted, Entry, Fits, Entries, Hex, ParseBytes, Written;
    LongSsidAnswersForAnother(ls, ssid, p, other);
    FitsIsSameName(ssid);
    FindIsEntries(ls, SoughtName(ssid));
    FindIsEntries(ls, SoughtName(other));
    EntryFields(ssid, p);
    EntryFields(ssid, q);
    var one := ls + [Entry(ssid, p)];
    assert Find(one, 1, SoughtName(ssid)) == |one|;
    var now := one + [Entry(ssid, q)];
    var n := |ls|;
    assert now[n] == Entry(ssid, p) && now[n + 1] == Entry(ssid, q) && forall k :: 0 <= k < n ==> now[k] == ls[k];
    EntryLoads(now, ssid, p, other, n);
    assert Find(now, 1, SoughtName(other)) == n;
    DropEffect(now, other, other);
    EntryLoads(now[n + 1..], ssid, q, other, 0);
  }

  // ---- Any history of saves and drops ----

  datatype Edit = Saving(ssid: seq<Octet>, psk: Psk) | Dropping(ssid: seq<Octet>)

  function Edited(ls: seq<seq<Octet>>, e: Edit): seq<seq<Octet>> {
    match e
    case Saving(ssid, psk) => SaveLines(ls, ssid, psk)
    case Dropping(ssid) => DropLines(ls, ssid)
  }

  function EditedAll(ls: seq<seq<Octet>>, es: seq<Edit>): seq<seq<Octet>> {
    if es == [] then ls else Edited(EditedAll(ls, es[..|es| - 1]), es[|es| - 1])
  }

  // The last edit of an SSID, if there is one.
  function LastOf(es: seq<Edit>, ssid: seq<Octet>): Option<Edit> {
    if es == [] then None
    else if es[|es| - 1].ssid == ssid then Some(es[|es| - 1])
    else LastOf(es[..|es| - 1], ssid)
  }

  // After any history of saves and drops of SSIDs the file can hold, on a file without
  // duplicate names, each SSID loads what its last edit says: the PSK saved, nothing, or
  // for an SSID never edited what it loaded at the start.
  lemma {:induction false} LastEditCounts(ls: seq<seq<Octet>>, es: seq<Edit>, ssid: seq<Octet>)
    requires Unique(ls) && forall k :: 0 <= k < |es| ==> es[k].ssid != [] && Fits(es[k].ssid)
    ensures Unique(EditedAll(ls, es)) && (AreLines(ls) ==> AreLines(EditedAll(ls, es)))
    ensures LoadLines(EditedAll(ls, es), ssid)
         == match LastOf(es, ssid)
            case None => LoadLines(ls, ssid)
            case Some(Saving(_, psk)) => Some(psk)
            case Some(Dropping(_)) => None
  {
    hide Unique, Fits, SaveLines, DropLines, LoadLines, AreLines;
    if es != [] {
      var n := |es| - 1;
      var e := es[n];
      var was := EditedAll(ls, es[..n]);
      LastEditCounts(ls, es[..n], ssid);
      DropRefines(was, e.ssid);
      DropThenLoad(was, e.ssid);
      match e {
        case Saving(id, psk) =>
          SaveRefines(was, id, psk);
          SaveThenLoad(was, id, psk);
          if id != ssid { OthersKept(was, id, psk, ssid); }
        case Dropping(id) =>
          if id != ssid { OthersKept(was, id, ZERO_PSK, ssid); }
      }
    }
  }
}

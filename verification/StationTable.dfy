/** The scan table over every run of the station: at most thirty slots, the unused ones
    zero, no BSSID on two live slots, and no stale slot once a dump is complete. */
module StationTable {
  import opened Octets
  import opened Scan
  import opened ScanTable
  import opened ApSelect
  import opened PskMap
  import opened PskText
  import opened StationSpec
  import opened StationRuns
  import opened StationPicks
  import opened Wrappers

  ghost predicate Sound(t: Table) { Bounded(t) && Distinct(t) }

  // u differs from t in flags only, and only in slots that are in use.
  ghost predicate SameButFlags(t: Table, u: Table) {
    && |u.slots| == |t.slots| && u.n == t.n
    && forall k :: 0 <= k < |t.slots| ==>
         u.slots[k] == t.slots[k].(flags := u.slots[k].flags) && (t.slots[k] == EMPTY ==> u.slots[k] == EMPTY)
  }

  lemma FlagsKeepSound(t: Table, u: Table)
    requires Sound(t) && SameButFlags(t, u)
    ensures Sound(u)
  {
    forall i, j | 0 <= i < j < |u.slots| && Live(u.slots[i]) && Live(u.slots[j])
      ensures u.slots[i].bssid != u.slots[j].bssid
    {
      assert Live(t.slots[i]) && Live(t.slots[j]);
    }
  }

  lemma {:induction false} SelectionKeepsSound(t: Table, f: Filter, failed: seq<bool>)
    requires Sound(t)
    ensures Sound(t.(slots := After(t.slots, t.n, f, failed)))
    decreases |failed|
  {
    hide Better, SameSsid;
    var i := Best(t.slots, t.n, f);
    if failed != [] && i != -1 {
      var u := t.(slots := t.slots[i := Used(t.slots[i], failed[0])]);
      FlagsKeepSound(t, u);
      SelectionKeepsSound(u, f, failed[1..]);
      assert u.(slots := After(u.slots, u.n, f, failed[1..])) == t.(slots := After(t.slots, t.n, f, failed));
    }
  }

  lemma ReassessSound(s: State)
    requires Fit(s) && Sound(s.table)
    ensures Sound(Reassess(s).s.table)
  {
    hide Reassess, After, Best, Sound;
    var failed := ReassessChooses(s);
    SelectionKeepsSound(s.table, FilterOf(s.ap), failed);
  }

  lemma MarkSound(t: Table, freqs: seq<int>)
    requires Sound(t)
    ensures Sound(Mark(t, freqs))
  {
    FlagsKeepSound(t, Mark(t, freqs));
  }

  lemma TakeSound(t: Table, r: Report)
    requires Sound(t)
    ensures Sound(Take(t, r))
  {
    TakeChangesOne(t, r);
  }

  // The table at the end of a dump: no stale slot.
  lemma SweptSound(s: State)
    requires Fit(s) && Sound(s.table)
    ensures Sound(Swept(s).table) && forall k :: 0 <= k < NSCANS ==> !Swept(s).table.slots[k].flags.stale
  {
    hide Suitable, Entries, CheckNew;
    DropSweeps(s.table, 0);
    SweptIsChecked(s);
    CheckedSound(ResetScan(s).(table := Drop(s.table)));
  }

  lemma SweptIsChecked(s: State)
    requires Fit(s)
    ensures |Drop(s.table).slots| == NSCANS && Drop(s.table).n <= NSCANS
    ensures Swept(s) == CheckNew(ResetScan(s).(table := Drop(s.table)))
  {
    hide CheckNew, DropFrom;
    DropFits(s.table, 0);
  }

  lemma CheckedSound(s: State)
    requires Fit(s) && Sound(s.table)
    ensures Sound(CheckNew(s).table)
    ensures forall k :: 0 <= k < NSCANS ==> CheckNew(s).table.slots[k].flags.stale == s.table.slots[k].flags.stale
  {
    hide Suitable, Entries;
    FlagsKeepSound(s.table, CheckNew(s).table);
  }

  lemma DoneSound(s: State)
    requires Fit(s) && Sound(s.table)
    ensures Sound(OnDone(s).s.table)
  {
    hide Sound, Reassess, Swept, Best;
    SweptSound(s);
    var u := Swept(s);
    ReassessSound(u);
    var w := if u.mode == Rescan then u.(mode := Active) else u;
    ReassessSound(w);
    ConnectionPicksNone(w);
  }

  lemma EapolDoneSound(s: State)
    requires Fit(s) && Sound(s.table)
    ensures Sound(OnEapolDone(s).s.table)
  {
    hide SaveLines;
    FlagsKeepSound(s.table, OnEapolDone(s).s.table);
  }

  lemma ConfigureSound(s: State, ssid: Option<seq<Octet>>, psk: Option<seq<Octet>>)
    requires Fit(s) && Sound(s.table)
    ensures Sound(Configure(s, ssid, psk).s.table)
  {
    hide LoadOver, LoadLines, LoadCode, SameSsid;
    FlagsKeepSound(s.table, Configure(s, ssid, psk).s.table);
  }

  lemma UserConnectSound(s: State, ssid: Option<seq<Octet>>, psk: Option<seq<Octet>>)
    requires Fit(s) && Sound(s.table)
    ensures Sound(OnUserConnect(s, ssid, psk).s.table)
  {
    hide Sound, Reassess, Configure;
    ConfigureSound(s, ssid, psk);
    ReassessSound(Configure(s, ssid, psk).s.(mode := OneShot, timer := false));
  }

  lemma ForgetSound(s: State, ssid: seq<Octet>)
    requires Fit(s) && Sound(s.table)
    ensures Sound(OnForget(s, ssid).s.table)
  {
    hide DropLines, Entries;
    FlagsKeepSound(s.table, OnForget(s, ssid).s.table);
  }

  lemma StepSound(s: State, e: Event)
    requires Fit(s) && Sound(s.table)
    ensures Sound(Step(s, e).s.table)
  {
    if Quiet(e) {
      hide Step, After, Best, Sound;
      var failed := StepChooses(s, e);
      SelectionKeepsSound(s.table, FilterOf(s.ap), failed);
    } else {
      hide Sound, OnDone, OnEapolDone, OnUserConnect, OnForget, Mark, Take;
      match e {
        case CardTrigger(freqs) => MarkSound(s.table, freqs);
        case CardResult(report) => TakeSound(s.table, report);
        case CardDone => DoneSound(s);
        case EapolDone => EapolDoneSound(s);
        case UserConnect(ssid, psk) => UserConnectSound(s, ssid, psk);
        case UserForget(name) => ForgetSound(s, name);
      }
    }
  }

  // No run breaks the table.
  lemma {:induction false} TableStaysSound(s: State, es: seq<Event>)
    requires Fit(s) && Sound(s.table)
    ensures Sound(Run(s, es).s.table)
  {
    hide Step, Sound;
    if es != [] {
      TableStaysSound(s, es[..|es| - 1]);
      StepSound(Run(s, es[..|es| - 1]).s, es[|es| - 1]);
    }
  }
}

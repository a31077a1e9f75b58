/** Which access point is tried next (wsupp_apsel.c:43-143), and in what order
    repeated choices go. */
module ApSelect {
  import opened Octets
  import opened Scan

  // The fields of struct ap that restrict the choice.
  datatype Filter = Filter(fixed: bool, slen: SsidLen, ssid: SsidBuffer)

  predicate SameSsid(s: Scan, slen: SsidLen, ssid: SsidBuffer) { s.slen == slen && s.ssid[..slen] == ssid[..slen] }

  // check_wpa
  predicate Suitable(t: Types) { t.psk && t.pairCcmp && (t.groupCcmp || t.groupTkip) }

  // connectable, match_ssid and the test for a live slot.
  predicate Candidate(s: Scan, f: Filter) {
    && s.freq != 0
    && s.flags.good && !s.flags.tried && (f.fixed || s.flags.pass)
    && (f.fixed ==> SameSsid(s, f.slen, f.ssid))
  }

  function BandScore(s: Scan): int { if s.signal < -7500 then 0 else if s.freq / 1000 == 5 then 1 else 0 }

  // compare(a, b) > 0
  predicate Better(a: Scan, b: Scan) {
    BandScore(a) > BandScore(b) || (BandScore(a) == BandScore(b) && a.signal > b.signal)
  }

  // Slot i is a candidate no candidate beats, and the first such.
  ghost predicate IsBest(s: seq<Scan>, n: nat, f: Filter, i: int)
    requires n <= |s|
  {
    && 0 <= i < n && Candidate(s[i], f)
    && (forall k :: 0 <= k < n && Candidate(s[k], f) ==> !Better(s[k], s[i]))
    && (forall k :: 0 <= k < i && Candidate(s[k], f) ==> Better(s[i], s[k]))
  }

  ghost predicate NoCandidate(s: seq<Scan>, n: nat, f: Filter)
    requires n <= |s|
  {
    forall k :: 0 <= k < n ==> !Candidate(s[k], f)
  }

  // The scan of get_best_ap over the first n slots; -1 when there is no candidate.
  function Best(s: seq<Scan>, n: nat, f: Filter): (i: int)
    requires n <= |s|
    ensures -1 <= i < n
    ensures i == -1 <==> NoCandidate(s, n, f)
    ensures i >= 0 ==> IsBest(s, n, f, i)
  {
    if n == 0 then -1
    else
      var i := Best(s, n - 1, f);
      if Candidate(s[n - 1], f) && (i == -1 || Better(s[n - 1], s[i])) then n - 1 else i
  }

  // One slot more.
  lemma BestOfMore(s: seq<Scan>, n: nat, f: Filter, i: int)
    requires n < |s| && if i == -1 then NoCandidate(s, n, f) else IsBest(s, n, f, i)
    ensures var j := if Candidate(s[n], f) && (i == -1 || Better(s[n], s[i])) then n else i;
      if j == -1 then NoCandidate(s, n + 1, f) else IsBest(s, n + 1, f, j)
  {
    hide Candidate;
  }

  lemma BestIsUnique(s: seq<Scan>, n: nat, f: Filter, i: int, j: int)
    requires n <= |s| && IsBest(s, n, f, i) && IsBest(s, n, f, j)
    ensures i == j
  {
  }

  // get_best_ap (wsupp_apsel.c:125-143)
  method GetBestAp(scans: array<Scan>, nscans: nat, f: Filter) returns (best: int)
    requires nscans <= scans.Length
    ensures best == Best(scans[..], nscans, f)
    ensures best == -1 <==> NoCandidate(scans[..], nscans, f)
    ensures best >= 0 ==> IsBest(scans[..], nscans, f, best)
  {
    hide Candidate, Better, Best, IsBest, NoCandidate;
    best := -1;
    var sc := 0;
    NoneOfNone(scans[..], f);
    while sc < nscans
      invariant 0 <= sc <= nscans && -1 <= best < sc
      invariant if best == -1 then NoCandidate(scans[..], sc, f) else IsBest(scans[..], sc, f, best)
    {
      BestOfMore(scans[..], sc, f, best);
      if Candidate(scans[sc], f) {
        if best == -1 || Better(scans[sc], scans[best]) { best := sc; }
      }
      sc := sc + 1;
    }
    if best >= 0 {
      OneIsCandidate(scans[..], nscans, f, best);
      BestIsUnique(scans[..], nscans, f, best, Best(scans[..], nscans, f));
    }
  }

  lemma NoneOfNone(s: seq<Scan>, f: Filter)
    ensures NoCandidate(s, 0, f)
  {
  }

  lemma OneIsCandidate(s: seq<Scan>, n: nat, f: Filter, i: int)
    requires n <= |s| && IsBest(s, n, f, i)
    ensures !NoCandidate(s, n, f)
  {
    hide Candidate;
  }

  // ---- Repeated choices ----

  // A slot once it was chosen; a failed attempt also costs it SF_GOOD.
  function Used(s: Scan, failed: bool): Scan {
    s.(flags := s.flags.(tried := true, good := s.flags.good && !failed))
  }

  // The slots chosen in a row, each marked before the next is looked for; outcomes says
  // which attempts fail on the spot.
  function Choices(s: seq<Scan>, n: nat, f: Filter, outcomes: seq<bool>): (cs: seq<int>)
    requires n <= |s|
    ensures forall k :: 0 <= k < |cs| ==> 0 <= cs[k] < n
    decreases |outcomes|
  {
    var i := Best(s, n, f);
    if outcomes == [] || i == -1 then []
    else [i] + Choices(s[i := Used(s[i], outcomes[0])], n, f, outcomes[1..])
  }

  // Only candidates are ever chosen.
  lemma {:induction false} ChoicesAreCandidates(s: seq<Scan>, n: nat, f: Filter, outcomes: seq<bool>)
    requires n <= |s|
    ensures forall k :: 0 <= k < |Choices(s, n, f, outcomes)| ==> Candidate(s[Choices(s, n, f, outcomes)[k]], f)
    decreases |outcomes|
  {
    hide SameSsid;
    var i := Best(s, n, f);
    if outcomes != [] && i != -1 {
      var s' := s[i := Used(s[i], outcomes[0])];
      ChoicesAreCandidates(s', n, f, outcomes[1..]);
    }
  }

  // While nothing but these choices touches the table, no slot is chosen twice and
  // every choice ranks no higher than the ones before it.
  lemma {:induction false} ChoicesDescend(s: seq<Scan>, n: nat, f: Filter, outcomes: seq<bool>, a: nat, b: nat)
    requires n <= |s| && a < b < |Choices(s, n, f, outcomes)|
    ensures var cs := Choices(s, n, f, outcomes);
      cs[a] != cs[b] && !Better(s[cs[b]], s[cs[a]])
    decreases |outcomes|
  {
    hide SameSsid;
    var i := Best(s, n, f);
    var s' := s[i := Used(s[i], outcomes[0])];
    if a == 0 {
      ChoicesAreCandidates(s', n, f, outcomes[1..]);
      assert Candidate(s'[Choices(s', n, f, outcomes[1..])[b - 1]], f);
    } else {
      ChoicesDescend(s', n, f, outcomes[1..], a - 1, b - 1);
    }
  }

  // Choosing goes on exactly until no candidate is left: with outcomes to spare, the
  // last table has none.
  function After(s: seq<Scan>, n: nat, f: Filter, outcomes: seq<bool>): (t: seq<Scan>)
    requires n <= |s|
    ensures |t| == |s|
    decreases |outcomes|
  {
    var i := Best(s, n, f);
    if outcomes == [] || i == -1 then s
    else After(s[i := Used(s[i], outcomes[0])], n, f, outcomes[1..])
  }

  lemma {:induction false} ChoicesExhaust(s: seq<Scan>, n: nat, f: Filter, outcomes: seq<bool>)
    requires n <= |s|
    ensures |Choices(s, n, f, outcomes)| < |outcomes| ==> NoCandidate(After(s, n, f, outcomes), n, f)
    decreases |outcomes|
  {
    hide Candidate;
    var i := Best(s, n, f);
    if outcomes != [] && i != -1 {
      ChoicesExhaust(s[i := Used(s[i], outcomes[0])], n, f, outcomes[1..]);
    }
  }
}

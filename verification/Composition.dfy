/** The two machines together: the calls the station makes into the EAPOL code are always
    in the order the handshake properties ask for. */
module Composition {
  import St = StationSpec
  import opened StationRuns
  import E = EapolSpec
  import HR = HandshakeRuns
  import opened Wrappers

  // The calls into the EAPOL code among the acts of a history.
  ghost function Calls(h: seq<St.Act>): seq<St.Act> {
    if h == [] then []
    else
      var n := |h| - 1;
      Calls(h[..n]) + if ForEapol(h[n]) then [h[n]] else []
  }

  // The same calls as the EAPOL code sees them, between the frames it receives.
  function Kind(e: E.Event): seq<St.Act> {
    match e
    case Prime => [St.EapolPrime]
    case Allow(_) => [St.EapolAllow]
    case Reset => [St.EapolReset]
    case Receive(_, _, _, _) => []
  }

  function Kinds(ins: seq<E.Input>): seq<St.Act> {
    if ins == [] then [] else Kind(ins[0].event) + Kinds(ins[1..])
  }

  // Every allowing call comes right after a priming one.
  ghost predicate Paired(calls: seq<St.Act>) {
    forall k :: 0 <= k < |calls| && calls[k].EapolAllow? ==> k > 0 && calls[k - 1] == St.EapolPrime
  }

  lemma {:induction false} CallsArePaired(h: seq<St.Act>)
    requires Orderly(h)
    ensures Paired(Calls(h))
    ensures LastEapol(h) == if Calls(h) == [] then None else Some(Calls(h)[|Calls(h)| - 1])
  {
    hide LastAuth;
    if h != [] {
      CallsArePaired(h[..|h| - 1]);
    }
  }

  // Frames and calls in any mixture, from call i on: orderly when the calls are paired.
  lemma {:induction false} PairedIsOrderly(calls: seq<St.Act>, i: nat, ins: seq<E.Input>)
    requires Paired(calls) && i + |Kinds(ins)| <= |calls| && Kinds(ins) == calls[i..i + |Kinds(ins)|]
    ensures HR.Orderly(i == 0 || !calls[i - 1].EapolPrime?, ins)
    decreases |ins|
  {
    if ins != [] {
      var rest := Kinds(ins[1..]);
      if ins[0].event.Receive? {
        assert Kinds(ins) == rest;
        PairedIsOrderly(calls, i, ins[1..]);
      } else {
        var c := Kind(ins[0].event)[0];
        assert Kinds(ins)[0] == c && calls[i] == c;
        assert Kinds(ins)[1..] == rest;
        assert rest == calls[i + 1..i + 1 + |rest|];
        PairedIsOrderly(calls, i + 1, ins[1..]);
      }
    }
  }

  // In every run of the station, and with any frames received in between, the inputs the
  // EAPOL code gets from the start on satisfy what the handshake properties assume; so its
  // keys and counters are as stated there.
  lemma EveryHandshakeIsOrderly(s: St.State, es: seq<St.Event>, ins: seq<E.Input>)
    requires Fresh(s) && Kinds(ins) <= Calls(Run(s, es).acts)
    ensures HR.Orderly(true, ins)
    ensures forall v: E.View, h: HR.History :: v.phase == E.Idle && !h.seen && h.counters == [] ==>
              HR.Inv(E.Run(v, ins).view, HR.TrackRun(h, v, ins), HR.Allowed(true, ins))
  {
    hide Run, HR.Inv, HR.TrackRun, E.Run, HR.Allowed;
    RunKeeps(s, es);
    CallsArePaired(Run(s, es).acts);
    PairedIsOrderly(Calls(Run(s, es).acts), 0, ins);
    forall v: E.View, h: HR.History | v.phase == E.Idle && !h.seen && h.counters == []
      ensures HR.Inv(E.Run(v, ins).view, HR.TrackRun(h, v, ins), HR.Allowed(true, ins))
    {
      HR.KeysAndCountersInEveryRun(v, h, ins);
    }
  }
}

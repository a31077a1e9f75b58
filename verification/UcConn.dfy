/** A control connection over all the calls of handle_conn (wsupp_cntrl.c:420-448). Each call
    starts with an empty receive buffer and ends at the first error, so what it holds then
    is gone: exactly when the messages all come through nevertheless. A wait that the
    interval timer of handle_conn cuts off is a failing read. */
module UcConn {
  import opened Octets
  import opened UcMessage
  import opened UcRecv
  import opened Wrappers
  import opened Seqs

  // The messages dispatched during n receive calls. When there is nothing more to read
  // the next call of handle_conn goes on, with a buffer of its own; any other error ends
  // the connection.
  function Dispatched(held: seq<Octet>, fd: seq<Arrival>, size: nat, n: nat): seq<seq<Octet>>
    decreases n
  {
    if n == 0 then []
    else
      var o := Recv(held, fd, size, false);
      if o.msg.Some? then [o.msg.value] + Dispatched(o.held, o.fd, size, n - 1)
      else if o.code == -EAGAIN then Dispatched([], o.fd, size, n - 1)
      else []
  }

  // With part bytes of the messages ms held, and first telling that the current call has
  // not read anything yet: no pause finds a call that holds part of a message before it
  // read anything, and nothing fails before the last message is through. A part that
  // arrives after its call began is waited for.
  ghost predicate Harmless(part: nat, first: bool, fd: seq<Arrival>, ms: seq<seq<Octet>>, size: nat)
    decreases |ms|, |fd|, size - part
  {
    if ms != [] && part >= |ms[0]| then Harmless(part - |ms[0]|, true, fd, ms[1..], size)
    else if fd == [] || part >= size then true
    else match fd[0]
      case Pause => (first ==> part == 0) && Harmless(part, first, fd[1..], ms, size)
      case Failure(_) => ms == []
      case Data(bytes) =>
        bytes == [] || Harmless(part + |Taken(fd, size - part)|, false, Rest(fd, size - part), ms, size)
  }

  // ---- One call ----

  lemma TakenAndRest(fd: seq<Arrival>, left: nat)
    requires fd != [] && fd[0].Data? && left > 0
    ensures Stream(fd) == Taken(fd, left) + Stream(Rest(fd, left))
  {
    if left < |fd[0].bytes| {
      var r := Rest(fd, left);
      assert r[1..] == fd[1..];
      SplitAt(fd[0].bytes, left);
      Regroup(fd[0].bytes[..left], fd[0].bytes[left..], Stream(fd[1..]));
    }
  }

  // No byte is used twice.
  ghost predicate Thrifty(o: Outcome, held: seq<Octet>, fd: seq<Arrival>) {
    (if o.msg.Some? then |o.msg.value| else 0) + |o.held| + |Stream(o.fd)| <= |held| + |Stream(fd)|
  }

  lemma {:induction false} ReceiveIsThrifty(held: seq<Octet>, fd: seq<Arrival>, size: nat, total: nat, wait: bool)
    ensures Thrifty(Receive(held, fd, size, total, wait), held, fd)
    decreases |fd|, size - |held|
  {
    hide IsMessage, Taken, Rest, Receive, Ready;
    if |held| >= size {
      FullIs(held, fd, size, total, wait);
    } else {
      TurnIs(held, fd, size, total, wait);
      ReadyIsSame(fd, wait);
      var found := Ready(fd, wait);
      if found != [] && found[0].Data? {
        var left := size - |held|;
        var s, r := Taken(found, left), Rest(found, left);
        TakenAndRest(found, left);
        RestIsLess(found, left);
        if IsMessage(held + s) {
          TakesPart(held + s);
        } else if s != [] {
          ReceiveIsThrifty(held + s, r, size, total + |s|, true);
        }
      }
    }
  }

  lemma TakesPart(held: seq<Octet>)
    requires IsMessage(held)
    ensures Read4(held, 0) <= |held|
  {
  }

  lemma RecvIsThrifty(held: seq<Octet>, fd: seq<Arrival>, size: nat, block: bool)
    ensures Thrifty(Recv(held, fd, size, block), held, fd)
  {
    hide IsMessage, Receive;
    if IsMessage(held) { TakesPart(held); } else { ReceiveIsThrifty(held, fd, size, 0, block); }
  }

  // A call that may wait passes pauses by.
  lemma {:induction false} WaitingIsHarmless(part: nat, fd: seq<Arrival>, ms: seq<seq<Octet>>, size: nat, wait: bool)
    requires part < size && (ms != [] ==> part < |ms[0]|)
    ensures Harmless(part, !wait, fd, ms, size) <==> Harmless(part, !wait, Ready(fd, wait), ms, size)
    decreases |fd|
  {
    if wait && fd != [] && fd[0].Pause? {
      WaitingIsHarmless(part, fd[1..], ms, size, wait);
    }
  }

  // What is harmless from before a call on is what is harmless after it.
  ghost predicate Carries(o: Outcome, held: seq<Octet>, ms: seq<seq<Octet>>, size: nat, harmless: bool) {
    match o.msg
    case Some(_) => ms != [] && (harmless <==> Harmless(|o.held|, true, o.fd, ms[1..], size))
    case None =>
      if o.code == -EAGAIN then o.held == held && (harmless <==> held == [] && Harmless(0, true, o.fd, ms, size))
      else harmless <==> ms == []
  }

  lemma {:induction false} ReceiveCarries(held: seq<Octet>, fd: seq<Arrival>, size: nat, total: nat, wait: bool,
                                          ms: seq<seq<Octet>>)
    requires HEADER <= size && |held| <= size && Proper(ms, size) && Alive(fd)
    requires held + Stream(fd) == Concat(ms) && !IsMessage(held)
    ensures Carries(Receive(held, fd, size, total, wait), held, ms, size, Harmless(|held|, !wait, fd, ms, size))
    ensures wait ==> Receive(held, fd, size, total, wait).code != -EAGAIN
    decreases |fd|, size - |held|
  {
    hide IsMessage, Taken, Rest, Receive, Proper, Ready, Alive, Stream, Concat, Harmless;
    CompleteIsFirst(held, Stream(fd), ms, size);
    NotYetFull(held, ms, size);
    TurnIs(held, fd, size, total, wait);
    ReadyIsSame(fd, wait);
    ReadyIsPart(fd, wait);
    var found := Ready(fd, wait);
    WaitingIsHarmless(|held|, fd, ms, size, wait);
    HarmlessIs(|held|, !wait, found, ms, size);
    if found == [] {
      NoStream();
      NothingLeft(held, ms, size);
    } else if found[0].Data? {
      var left := size - |held|;
      var s, r := Taken(found, left), Rest(found, left);
      StreamSplits(found, left);
      SomeTaken(found, left);
      assert held + (s + Stream(r)) == held + s + Stream(r);
      CompleteIsFirst(held + s, Stream(r), ms, size);
      if IsMessage(held + s) {
        HarmlessIs(|held + s|, false, r, ms, size);
      } else {
        RestIsLess(found, left);
        ReceiveCarries(held + s, r, size, total + |s|, true, ms);
      }
    }
  }

  lemma SomeTaken(fd: seq<Arrival>, left: nat)
    requires fd != [] && fd[0].Data?
    ensures fd[0].bytes == [] ==> Taken(fd, left) == []
  {
  }

  // One unfolding.
  lemma HarmlessIs(part: nat, first: bool, fd: seq<Arrival>, ms: seq<seq<Octet>>, size: nat)
    ensures Harmless(part, first, fd, ms, size) <==>
              if ms != [] && part >= |ms[0]| then Harmless(part - |ms[0]|, true, fd, ms[1..], size)
              else if fd == [] || part >= size then true
              else if fd[0].Pause? then (first ==> part == 0) && Harmless(part, first, fd[1..], ms, size)
              else if fd[0].Failure? then ms == []
              else
                || fd[0].bytes == []
                || Harmless(part + |Taken(fd, size - part)|, false, Rest(fd, size - part), ms, size)
  {
  }

  // ---- All the calls ----

  // Whatever arrives, no more is dispatched than was there.
  lemma {:induction false} DispatchedIsBounded(held: seq<Octet>, fd: seq<Arrival>, size: nat, n: nat)
    ensures |Concat(Dispatched(held, fd, size, n))| <= |held| + |Stream(fd)|
    decreases n
  {
    hide Recv;
    if n > 0 {
      RecvIsThrifty(held, fd, size, false);
      var o := Recv(held, fd, size, false);
      if o.msg.Some? {
        DispatchedIsBounded(o.held, o.fd, size, n - 1);
        assert ([o.msg.value] + Dispatched(o.held, o.fd, size, n - 1))[1..] == Dispatched(o.held, o.fd, size, n - 1);
      } else {
        DispatchedIsBounded([], o.fd, size, n - 1);
      }
    }
  }

  lemma RecvCarries(held: seq<Octet>, fd: seq<Arrival>, size: nat, ms: seq<seq<Octet>>)
    requires HEADER <= size && |held| <= size && Proper(ms, size) && Alive(fd) && held + Stream(fd) == Concat(ms)
    ensures Carries(Recv(held, fd, size, false), held, ms, size, Harmless(|held|, true, fd, ms, size))
  {
    hide IsMessage, Receive, Proper, Alive, Harmless;
    CompleteIsFirst(held, Stream(fd), ms, size);
    if IsMessage(held) {
      HarmlessIs(|held|, true, fd, ms, size);
    } else {
      ReceiveCarries(held, fd, size, 0, false, ms);
    }
  }

  lemma NothingSent(fd: seq<Arrival>)
    requires Alive(fd) && Stream(fd) == [] && Stops(fd) == 0
    ensures fd == []
  {
  }

  lemma NoMessages(ms: seq<seq<Octet>>, size: nat)
    requires Proper(ms, size)
    ensures Concat(ms) == [] <==> ms == []
    ensures ms != [] ==> Proper(ms[1..], size) && ms == [ms[0]] + ms[1..]
  {
  }

  // However the stream is cut up, and wherever the socket has nothing to read or fails:
  // the calls of handle_conn dispatch the messages sent, all of them and in order, exactly
  // if the pauses are harmless.
  lemma {:induction false} AllDispatchedIff(held: seq<Octet>, fd: seq<Arrival>, size: nat, ms: seq<seq<Octet>>, n: nat)
    requires HEADER <= size && |held| <= size && Proper(ms, size) && Alive(fd) && held + Stream(fd) == Concat(ms)
    requires n >= |ms| + Stops(fd)
    ensures Dispatched(held, fd, size, n) == ms <==> Harmless(|held|, true, fd, ms, size)
    decreases n
  {
    hide Recv, IsMessage, Harmless, Proper, Alive, Explained, Concat, Stops;
    NoMessages(ms, size);
    if n == 0 {
      NothingSent(fd);
      HarmlessIs(|held|, true, fd, ms, size);
    } else {
      RecvIsHonest(held, fd, size, false, ms);
      RecvCarries(held, fd, size, ms);
      var o := Recv(held, fd, size, false);
      if o.msg.Some? {
        AllDispatchedIff(o.held, o.fd, size, ms[1..], n - 1);
        var rest := Dispatched(o.held, o.fd, size, n - 1);
        assert ([ms[0]] + rest)[1..] == rest;
      } else if o.code == -EAGAIN {
        if o.held == [] {
          AllDispatchedIff([], o.fd, size, ms, n - 1);
        } else {
          DispatchedIsBounded([], o.fd, size, n - 1);
        }
      }
    }
  }

  // ---- What a client may do ----

  // Every arrival ends within a message or with it, and nothing fails.
  ghost predicate Separate(part: nat, fd: seq<Arrival>, ms: seq<seq<Octet>>)
    decreases |fd|
  {
    if fd == [] then true
    else match fd[0]
      case Pause => Separate(part, fd[1..], ms)
      case Failure(_) => false
      case Data(bytes) =>
        && ms != [] && part + |bytes| <= |ms[0]|
        && if part + |bytes| == |ms[0]| then Separate(0, fd[1..], ms[1..]) else Separate(part + |bytes|, fd[1..], ms)
  }

  lemma {:induction false} OneAtATimeIsHarmless(part: nat, first: bool, fd: seq<Arrival>, ms: seq<seq<Octet>>, size: nat)
    requires HEADER <= size && Proper(ms, size) && Alive(fd) && Separate(part, fd, ms)
    requires (first ==> part == 0) && (ms != [] ==> part < |ms[0]|) && (ms == [] ==> part == 0)
    ensures Harmless(part, first, fd, ms, size)
    decreases |fd|
  {
    hide Harmless, Taken, Rest;
    HarmlessIs(part, first, fd, ms, size);
    if fd != [] {
      AliveTail(fd);
      if fd[0].Pause? {
        OneAtATimeIsHarmless(part, first, fd[1..], ms, size);
      } else {
        var n := part + |fd[0].bytes|;
        WholeTaken(fd, size - part);
        HarmlessIs(n, false, fd[1..], ms, size);
        if n == |ms[0]| {
          OneAtATimeIsHarmless(0, true, fd[1..], ms[1..], size);
        } else {
          OneAtATimeIsHarmless(n, false, fd[1..], ms, size);
        }
      }
    }
  }

  // A client that waits for the reply to one message before it sends the next loses
  // nothing, however its messages are cut up and wherever the socket runs dry.
  lemma OneAtATimeIsWhole(fd: seq<Arrival>, ms: seq<seq<Octet>>, size: nat, n: nat)
    requires HEADER <= size && Proper(ms, size) && Alive(fd) && Stream(fd) == Concat(ms) && Separate(0, fd, ms)
    requires n >= |ms| + Stops(fd)
    ensures Dispatched([], fd, size, n) == ms
  {
    hide Harmless, Dispatched, Separate, Stream, Concat, Stops;
    OneAtATimeIsHarmless(0, true, fd, ms, size);
    AllDispatchedIff([], fd, size, ms, n);
  }

  lemma WholeTaken(fd: seq<Arrival>, left: nat)
    requires fd != [] && fd[0].Data? && |fd[0].bytes| <= left
    ensures Taken(fd, left) == fd[0].bytes && Rest(fd, left) == fd[1..]
  {
  }

  // The beginning of a second message behind the end of the first, and then a pause.
  function Overlapping(a: seq<Octet>, b: seq<Octet>, k: nat): seq<Arrival>
    requires k <= |b|
  {
    [Data(a + b[..k]), Pause, Data(b[k..])]
  }

  // The part of the second message is lost, for any two messages.
  lemma PartBehindIsLost(a: seq<Octet>, b: seq<Octet>, k: nat, size: nat, n: nat)
    requires HEADER <= size && Proper([a, b], size) && 0 < k < |b| && |a| + k <= size && n >= 3
    ensures Dispatched([], Overlapping(a, b, k), size, n) != [a, b]
  {
    hide Harmless, Dispatched, Taken, Rest;
    var fd, ms := Overlapping(a, b, k), [a, b];
    StreamOfThree(a, b, k);
    assert ms[0] == a && ms[1] == b && ms[1..] == [b];
    WholeTaken(fd, size);
    HarmlessIs(0, true, fd, ms, size);
    HarmlessIs(|a| + k, false, fd[1..], ms, size);
    HarmlessIs(k, true, fd[1..], [b], size);
    AllDispatchedIff([], fd, size, ms, n);
  }

  lemma StreamOfThree(a: seq<Octet>, b: seq<Octet>, k: nat)
    requires 0 < k < |b|
    ensures var fd := Overlapping(a, b, k);
      Alive(fd) && Stops(fd) == 1 && Stream(fd) == Concat([a, b]) && fd[1..] == [Pause, Data(b[k..])]
  {
    hide Stream, Stops, Concat;
    var fd := Overlapping(a, b, k);
    var rest := [Data(b[k..])];
    OneArrival(Data(a + b[..k]), [Pause] + rest);
    OneArrival(Pause, rest);
    OneArrival(Data(b[k..]), []);
    assert fd == [Data(a + b[..k])] + ([Pause] + rest) && rest == [Data(b[k..])] + [];
    NoArrival();
    OneMessage(a, [b]);
    OneMessage(b, []);
    assert [a, b] == [a] + [b] && [b] == [b] + [];
    SplitAt(b, k);
    Regroup(a, b[..k], b[k..]);
  }

  lemma OneArrival(x: Arrival, fd: seq<Arrival>)
    ensures Stream([x] + fd) == (if x.Data? then x.bytes else []) + Stream(fd)
    ensures Stops([x] + fd) == (if x.Data? then 0 else 1) + Stops(fd)
  {
    assert ([x] + fd)[1..] == fd;
  }

  lemma NoArrival()
    ensures Stream([]) == [] && Stops([]) == 0 && Concat([]) == []
  {
  }

  lemma OneMessage(m: seq<Octet>, ms: seq<seq<Octet>>)
    ensures Concat([m] + ms) == m + Concat(ms)
  {
    assert ([m] + ms)[1..] == ms;
  }
}

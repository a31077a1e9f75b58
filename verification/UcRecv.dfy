/** Messages out of a byte stream (nlusctl/recv.c): however the stream is cut into
    arrivals, the receive calls return the messages that were sent, in order. */
module UcRecv {
  import opened Octets
  import opened UcMessage
  import opened Wrappers
  import opened Seqs

  const EAGAIN := 11

  // What the socket will yield: some bytes, nothing for a while, or a failing call. On a
  // pause a read that may not wait fails with EAGAIN, and one that may wait gets what comes
  // next. After the last arrival, or on an empty one, recv returns 0.
  type Errno = e: nat | e > 0 && e != EAGAIN witness 1
  datatype Arrival = Data(bytes: seq<Octet>) | Pause | Failure(errno: Errno)

  // What a read finds.
  function Ready(fd: seq<Arrival>, wait: bool): (r: seq<Arrival>)
    ensures |r| <= |fd|
  {
    if wait && fd != [] && fd[0].Pause? then Ready(fd[1..], wait) else fd
  }

  const ENOBUFS := 105
  const EBADMSG := 74
  const EBADF := 9

  // One call of uc_recv: its return value, the message, the bytes held between mptr and
  // rptr, and what is still to arrive.
  datatype Outcome = Outcome(code: int, msg: Option<seq<Octet>>, held: seq<Octet>, fd: seq<Arrival>)

  // What is left of an arrival when left bytes of it are taken.
  function Rest(fd: seq<Arrival>, left: nat): seq<Arrival>
    requires fd != [] && fd[0].Data?
  {
    if left < |fd[0].bytes| then [Data(fd[0].bytes[left..])] + fd[1..] else fd[1..]
  }

  function Taken(fd: seq<Arrival>, left: nat): (s: seq<Octet>)
    requires fd != [] && fd[0].Data?
    ensures |s| <= left
  {
    if left < |fd[0].bytes| then fd[0].bytes[..left] else fd[0].bytes
  }

  // take_complete_msg
  function TakeMessage(held: seq<Octet>, code: int, fd: seq<Arrival>): Outcome
    requires IsMessage(held)
  {
    Outcome(code, Some(held[..Read4(held, 0)]), held[Read4(held, 0)..], fd)
  }

  // The loop of uc_recv, in a buffer of size bytes of which held are in use; wait is
  // whether the next read may wait, which every read but the first may.
  function Receive(held: seq<Octet>, fd: seq<Arrival>, size: nat, total: nat, wait: bool): (o: Outcome)
    ensures |held| <= size ==> |o.held| <= size
    decreases |fd|, size - |held|, 1
  {
    if |held| >= size then Outcome(-ENOBUFS, None, held, fd) else OneRead(held, Ready(fd, wait), size, total)
  }

  // The rest of a turn, when a read finds fd.
  function OneRead(held: seq<Octet>, fd: seq<Arrival>, size: nat, total: nat): (o: Outcome)
    requires |held| < size
    ensures |o.held| <= size
    decreases |fd|, size - |held|, 0
  {
    if fd == [] then Outcome(EndCode(held), None, held, fd)
    else if fd[0].Pause? then Outcome(-EAGAIN, None, held, fd[1..])
    else if fd[0].Failure? then Outcome(0 - fd[0].errno, None, held, fd[1..])
    else
      var s := Taken(fd, size - |held|);
      if s == [] then Outcome(EndCode(held), None, held, Rest(fd, size - |held|))
      else
        var h := held + s;
        var r := Rest(fd, size - |held|);
        if IsMessage(h) then TakeMessage(h, total + |s|, r) else Receive(h, r, size, total + |s|, true)
  }

  // uc_recv; block is its last argument.
  function Recv(held: seq<Octet>, fd: seq<Arrival>, size: nat, block: bool): (o: Outcome)
    ensures |held| <= size ==> |o.held| <= size
  {
    if IsMessage(held) then TakeMessage(held, 0, fd) else Receive(held, fd, size, 0, block)
  }

  class UrBuf {
    const buf: array<Octet>
    var mptr: nat
    var rptr: nat
    var msg: Option<(nat, nat)>    // where the message is, and its length
    var fd: seq<Arrival>
    ghost var consumed: seq<Octet>
    ghost var received: seq<Octet>

    // No byte is lost or invented: the messages returned and the bytes held are the
    // bytes received.
    ghost predicate Valid()
      reads this, buf
    {
      mptr <= rptr <= buf.Length && consumed + buf[mptr..rptr] == received
    }

    ghost function Held(): seq<Octet>
      requires mptr <= rptr <= buf.Length
      reads this, buf
    {
      buf[mptr..rptr]
    }

    constructor (block: array<Octet>, arrivals: seq<Arrival>)
      ensures Valid() && buf == block && fd == arrivals && Held() == [] && consumed == received == []
    {
      buf, mptr, rptr, msg, fd := block, 0, 0, None, arrivals;
      consumed, received := [], [];
    }

    method ShiftBuf()
      requires Valid()
      modifies this, buf
      ensures Valid() && mptr == 0 && msg == None && Held() == old(Held())
      ensures fd == old(fd) && consumed == old(consumed) && received == old(received)
    {
      var shift := mptr;
      msg := None;
      if shift == 0 { return; }
      Move(buf, 0, mptr, rptr - mptr);
      mptr := mptr - shift;
      rptr := rptr - shift;
    }

    method TakeCompleteMsg() returns (r: int)
      requires Valid()
      modifies `mptr, `msg, `consumed
      ensures Valid()
      ensures r >= 0 <==> IsMessage(old(Held()))
      ensures r < 0 ==> r == -EBADMSG && mptr == old(mptr) && msg == old(msg) && consumed == old(consumed)
      ensures r >= 0 ==> r == Read4(old(Held()), 0) && msg == Some((old(mptr), r)) && mptr == old(mptr) + r
                         && buf[old(mptr)..mptr] == old(Held())[..r] && Held() == old(Held())[r..]
                         && consumed == old(consumed) + old(Held())[..r]
    {
      var len := rptr - mptr;
      if len < 8 { return -EBADMSG; }
      var mlen := buf[mptr] as int + buf[mptr + 1] as int * 0x100 + buf[mptr + 2] as int * 0x10000
                  + buf[mptr + 3] as int * 0x1000000;
      ghost var held := Held();
      assert mlen == Read4(held, 0);
      if mlen > len { return -EBADMSG; }
      assert held[..mlen] == buf[mptr..mptr + mlen] && held[mlen..] == buf[mptr + mlen..rptr];
      assert held == held[..mlen] + held[mlen..];
      msg := Some((mptr, mlen));
      consumed := consumed + buf[mptr..mptr + mlen];
      mptr := mptr + mlen;
      r := mlen;
    }

    // recv(2) of up to left bytes at rptr, and rptr += rd
    method Read(left: nat, wait: bool) returns (rd: int)
      requires Valid() && 0 < left && rptr + left <= buf.Length
      modifies this, buf
      ensures Valid() && mptr == old(mptr) && msg == old(msg) && consumed == old(consumed)
      ensures var found := Ready(old(fd), wait);
        && (found == [] ==> rd == 0 && fd == [] && Held() == old(Held()))
        && (found != [] && !found[0].Data? ==>
              && rd == (if found[0].Pause? then -EAGAIN else 0 - found[0].errno)
              && fd == found[1..] && Held() == old(Held()))
        && (found != [] && found[0].Data? ==>
              var s := Taken(found, left);
              rd == |s| && fd == Rest(found, left) && Held() == old(Held()) + s)
    {
      fd := Ready(fd, wait);
      if fd == [] { return 0; }
      match fd[0] {
        case Pause =>
          fd := fd[1..];
          return -EAGAIN;
        case Failure(errno) =>
          fd := fd[1..];
          return 0 - errno;
        case Data(bytes) =>
          var s := Taken(fd, left);
          fd := Rest(fd, left);
          Arrive(s);
          rd := |s|;
      }
    }

    method Arrive(s: seq<Octet>)
      requires Valid() && rptr + |s| <= buf.Length
      modifies `rptr, `received, buf
      ensures Valid() && rptr == old(rptr) + |s| && Held() == old(Held()) + s
    {
      ghost var held := Held();
      Copy(buf, rptr, s);
      received := received + s;
      rptr := rptr + |s|;
      assert Held() == held + s;
      assert consumed + (held + s) == consumed + held + s;
    }

    // The call returned code and left things as o says.
    ghost predicate Ended(o: Outcome, code: int)
      requires Valid()
      reads this, buf
    {
      && code == o.code && Held() == o.held && fd == o.fd
      && match o.msg {
           case None => msg == None
           case Some(m) =>
             && msg.Some? && msg.value.0 + msg.value.1 <= buf.Length
             && buf[msg.value.0..msg.value.0 + msg.value.1] == m
         }
    }

    // One turn of the loop: code is the return value, or the new total.
    method Turn(total: nat, wait: bool) returns (done: bool, code: int)
      requires Valid() && mptr == 0 && msg == None && rptr < buf.Length
      modifies this, buf
      ensures Valid()
      ensures var o := Receive(old(Held()), old(fd), buf.Length, total, wait);
        if done then
          Ended(o, code) && consumed == old(consumed) + if o.msg.Some? then o.msg.value else []
        else
          && mptr == 0 && msg == None && consumed == old(consumed) && code >= 0
          && Receive(Held(), fd, buf.Length, code, true) == o
          && (|fd| < |old(fd)| || (|fd| == |old(fd)| && rptr > old(rptr)))
    {
      hide IsMessage, Taken, Rest, Ready, Receive;
      ghost var size, held := buf.Length, Held();
      ghost var found := Ready(fd, wait);
      var left := buf.Length - rptr;
      TurnIs(held, fd, size, total, wait);
      var rd := Read(left, wait);
      if rd < 0 { return true, rd; }
      if rd == 0 {
        return true, if mptr < rptr then -EBADMSG else -EBADF;
      }
      code := total + rd;
      ghost var h := Held();
      var ret := TakeCompleteMsg();
      done := ret >= 0;
      RestIsLess(found, left);
    }

    // uc_recv
    method UcRecv(block: bool) returns (code: int)
      requires Valid()
      modifies this, buf
      ensures Valid()
      ensures var o := Recv(old(Held()), old(fd), buf.Length, block);
        Ended(o, code) && consumed == old(consumed) + if o.msg.Some? then o.msg.value else []
    {
      hide IsMessage, Receive;
      msg := None;
      var ret := TakeCompleteMsg();
      if ret >= 0 { return 0; }
      ShiftBuf();
      var total, done, wait := 0, false, block;
      while rptr < buf.Length
        invariant Valid() && mptr == 0 && msg == None && consumed == old(consumed) && total >= 0
        invariant Receive(Held(), fd, buf.Length, total, wait) == Recv(old(Held()), old(fd), buf.Length, block)
        decreases |fd|, buf.Length - rptr
      {
        done, code := Turn(total, wait);
        if done { return; }
        total := code;
        wait := true;
      }
      FullIs(Held(), fd, buf.Length, total, wait);
      code := -ENOBUFS;
    }
  }

  function EndCode(held: seq<Octet>): int { if held != [] then -EBADMSG else -EBADF }

  // One unfolding of the loop.
  lemma TurnIs(held: seq<Octet>, fd: seq<Arrival>, size: nat, total: nat, wait: bool)
    requires |held| < size
    ensures var o, found := Receive(held, fd, size, total, wait), Ready(fd, wait);
      && (found == [] ==> o == Outcome(EndCode(held), None, held, found))
      && (found != [] && found[0].Pause? ==> o == Outcome(-EAGAIN, None, held, found[1..]))
      && (found != [] && found[0].Failure? ==> o == Outcome(0 - found[0].errno, None, held, found[1..]))
      && (found != [] && found[0].Data? ==>
            var s, r := Taken(found, size - |held|), Rest(found, size - |held|);
            o == if s == [] then Outcome(EndCode(held), None, held, r)
                 else if IsMessage(held + s) then TakeMessage(held + s, total + |s|, r)
                 else Receive(held + s, r, size, total + |s|, true))
  {
    hide IsMessage;
  }

  lemma FullIs(held: seq<Octet>, fd: seq<Arrival>, size: nat, total: nat, wait: bool)
    requires |held| >= size
    ensures Receive(held, fd, size, total, wait) == Outcome(-ENOBUFS, None, held, fd)
  {
  }

  lemma RestIsLess(fd: seq<Arrival>, left: nat)
    ensures fd != [] && fd[0].Data? ==> |Rest(fd, left)| <= |fd| && (|Taken(fd, left)| < left ==> |Rest(fd, left)| < |fd|)
  {
  }

  // ---- Whole streams ----

  function Stream(fd: seq<Arrival>): seq<Octet> {
    if fd == [] then [] else (if fd[0].Data? then fd[0].bytes else []) + Stream(fd[1..])
  }

  function Concat(ms: seq<seq<Octet>>): seq<Octet> { if ms == [] then [] else ms[0] + Concat(ms[1..]) }

  // Messages that say their own length and fit the buffer.
  ghost predicate Proper(ms: seq<seq<Octet>>, size: nat) {
    forall k :: 0 <= k < |ms| ==> HEADER <= |ms[k]| <= size && Read4(ms[k], 0) == |ms[k]|
  }

  ghost predicate Alive(fd: seq<Arrival>) { forall k :: 0 <= k < |fd| && fd[k].Data? ==> fd[k].bytes != [] }

  // What is held is a complete message exactly when the first message is in.
  lemma CompleteIsFirst(held: seq<Octet>, rest: seq<Octet>, ms: seq<seq<Octet>>, size: nat)
    requires Proper(ms, size) && held + rest == Concat(ms)
    ensures IsMessage(held) <==> ms != [] && |held| >= |ms[0]|
    ensures IsMessage(held) ==> Read4(held, 0) == |ms[0]| && held[..|ms[0]|] == ms[0]
    ensures IsMessage(held) ==> held[|ms[0]|..] + rest == Concat(ms[1..])
  {
    var all := held + rest;
    if ms != [] {
      var m := ms[0];
      assert all[..|m|] == m;
      assert forall k :: 0 <= k < 4 ==> all[k] == m[k];
      if |held| >= 8 {
        assert forall k :: 0 <= k < 4 ==> held[k] == all[k];
        assert Read4(held, 0) == |m|;
      }
      if |held| >= |m| {
        assert held[..|m|] == all[..|m|];
        assert held[|m|..] + rest == all[|m|..];
      }
    }
  }

  lemma StreamSplits(fd: seq<Arrival>, left: nat)
    requires fd != [] && fd[0].Data? && Alive(fd) && left > 0
    ensures Alive(Rest(fd, left)) && Taken(fd, left) != []
    ensures Stream(fd) == Taken(fd, left) + Stream(Rest(fd, left))
  {
    if left < |fd[0].bytes| {
      var r := Rest(fd, left);
      assert r[1..] == fd[1..];
      SplitAt(fd[0].bytes, left);
      Regroup(fd[0].bytes[..left], fd[0].bytes[left..], Stream(fd[1..]));
    }
  }

  // The pauses and failures among the arrivals.
  function Stops(fd: seq<Arrival>): nat {
    if fd == [] then 0 else (if fd[0].Data? then 0 else 1) + Stops(fd[1..])
  }

  // A code that a pause or a failure explains, the pause only to a read that may not wait.
  predicate Explained(code: int, fd: seq<Arrival>, wait: bool) {
    code < 0 && if code == -EAGAIN then !wait && Pause in fd else Failure(0 - code) in fd
  }

  // What a call may do when held and the arrivals make up ms: it returns the first
  // message, or a pause or failure of the socket, or says that all is over; and what is
  // then left makes up the messages not returned.
  ghost predicate Honest(o: Outcome, fd: seq<Arrival>, ms: seq<seq<Octet>>, wait: bool) {
    && Alive(o.fd)
    && match o.msg {
         case Some(m) => ms != [] && m == ms[0] && o.code >= 0
           && o.held + Stream(o.fd) == Concat(ms[1..]) && Stops(o.fd) <= Stops(fd)
         case None =>
           && o.held + Stream(o.fd) == Concat(ms)
           && (|| (Explained(o.code, fd, wait) && Stops(o.fd) < Stops(fd))
               || (ms == [] && o.code == -EBADF && o.held == [] && o.fd == []))
       }
  }

  // Waiting passes pauses by, and nothing else.
  lemma {:induction false} ReadyIsSame(fd: seq<Arrival>, wait: bool)
    ensures var r := Ready(fd, wait);
      Stream(r) == Stream(fd) && Stops(r) <= Stops(fd) && (wait && r != [] ==> !r[0].Pause?)
    decreases |fd|
  {
    if wait && fd != [] && fd[0].Pause? {
      ReadyIsSame(fd[1..], wait);
    }
  }

  lemma {:induction false} ReadyIsPart(fd: seq<Arrival>, wait: bool)
    ensures Alive(fd) ==> Alive(Ready(fd, wait))
    ensures forall a <- Ready(fd, wait) :: a in fd
    decreases |fd|
  {
    hide Alive;
    if wait && fd != [] && fd[0].Pause? {
      ReadyIsPart(fd[1..], wait);
      AliveTail(fd);
    }
  }

  lemma AliveTail(fd: seq<Arrival>)
    requires fd != []
    ensures Alive(fd) ==> Alive(fd[1..])
  {
  }

  lemma {:induction false} ReceiveIsHonest(held: seq<Octet>, fd: seq<Arrival>, size: nat, total: nat, wait: bool,
                                           ms: seq<seq<Octet>>)
    requires HEADER <= size && |held| <= size && Proper(ms, size) && Alive(fd)
    requires held + Stream(fd) == Concat(ms) && !IsMessage(held)
    ensures Honest(Receive(held, fd, size, total, wait), fd, ms, wait)
    decreases |fd|, size - |held|
  {
    hide IsMessage, Taken, Rest, Receive, Proper, Ready, Explained, Alive, Stream, Stops, Concat;
    CompleteIsFirst(held, Stream(fd), ms, size);
    NotYetFull(held, ms, size);
    TurnIs(held, fd, size, total, wait);
    ReadyIsSame(fd, wait);
    ReadyIsPart(fd, wait);
    var found := Ready(fd, wait);
    if found == [] {
      NoStream();
      NothingLeft(held, ms, size);
    } else if found[0].Data? {
      var left := size - |held|;
      var s, r := Taken(found, left), Rest(found, left);
      StreamSplits(found, left);
      SameStops(found, left);
      assert held + (s + Stream(r)) == held + s + Stream(r);
      CompleteIsFirst(held + s, Stream(r), ms, size);
      if !IsMessage(held + s) {
        RestIsLess(found, left);
        ReceiveIsHonest(held + s, r, size, total + |s|, true, ms);
        InRest(fd, wait, left, Receive(held + s, r, size, total + |s|, true).code);
      }
    } else {
      StopIsExplained(fd, wait);
      AliveTail(found);
    }
  }

  lemma NoStream()
    ensures Stream([]) == [] && Alive([])
  {
  }

  lemma NotYetFull(held: seq<Octet>, ms: seq<seq<Octet>>, size: nat)
    requires HEADER <= size && Proper(ms, size) && |held| <= |Concat(ms)| && !(ms != [] && |held| >= |ms[0]|)
    ensures |held| < size
  {
  }

  lemma NothingLeft(held: seq<Octet>, ms: seq<seq<Octet>>, size: nat)
    requires Proper(ms, size) && held == Concat(ms) && !(ms != [] && |held| >= |ms[0]|)
    ensures ms == [] && held == []
  {
  }

  lemma SameStops(fd: seq<Arrival>, left: nat)
    requires fd != [] && fd[0].Data?
    ensures Stops(Rest(fd, left)) == Stops(fd)
  {
    if left < |fd[0].bytes| {
      assert Rest(fd, left)[1..] == fd[1..];
    }
  }

  lemma InRest(fd: seq<Arrival>, wait: bool, left: nat, code: int)
    requires Ready(fd, wait) != [] && Ready(fd, wait)[0].Data?
    ensures Explained(code, Rest(Ready(fd, wait), left), true) ==> Explained(code, fd, wait)
  {
    ReadyIsPart(fd, wait);
  }

  lemma StopIsExplained(fd: seq<Arrival>, wait: bool)
    ensures var found := Ready(fd, wait);
      && (found != [] && found[0].Pause? ==> Explained(-EAGAIN, fd, wait))
      && (found != [] && found[0].Failure? ==> Explained(0 - found[0].errno, fd, wait))
      && (found != [] && !found[0].Data? ==> Stops(found[1..]) < Stops(fd) && Stream(found[1..]) == Stream(fd))
  {
    ReadyIsSame(fd, wait);
    ReadyIsPart(fd, wait);
  }

  // One call, whatever the arrivals: never -ENOBUFS or -EBADMSG of its own making.
  lemma RecvIsHonest(held: seq<Octet>, fd: seq<Arrival>, size: nat, block: bool, ms: seq<seq<Octet>>)
    requires HEADER <= size && |held| <= size && Proper(ms, size) && Alive(fd) && held + Stream(fd) == Concat(ms)
    ensures Honest(Recv(held, fd, size, block), fd, ms, block)
  {
    hide IsMessage, Receive, Proper, Explained;
    CompleteIsFirst(held, Stream(fd), ms, size);
    if !IsMessage(held) {
      ReceiveIsHonest(held, fd, size, 0, block, ms);
    }
  }

  // The messages n successive calls return.
  function Calls(held: seq<Octet>, fd: seq<Arrival>, size: nat, block: bool, n: nat): seq<seq<Octet>>
    decreases n
  {
    if n == 0 then []
    else
      var o := Recv(held, fd, size, block);
      (if o.msg.Some? then [o.msg.value] else []) + Calls(o.held, o.fd, size, block, n - 1)
  }

  // However the messages are cut into arrivals, and however many calls find nothing or
  // fail in between, the calls return the messages in order; enough calls return them all.
  lemma {:induction false} MessagesInOrder(held: seq<Octet>, fd: seq<Arrival>, size: nat, block: bool,
                                           ms: seq<seq<Octet>>, n: nat)
    requires HEADER <= size && |held| <= size && Proper(ms, size) && Alive(fd) && held + Stream(fd) == Concat(ms)
    ensures Calls(held, fd, size, block, n) <= ms
    ensures n >= |ms| + Stops(fd) ==> Calls(held, fd, size, block, n) == ms
    decreases n
  {
    hide Recv;
    if n > 0 {
      RecvIsHonest(held, fd, size, block, ms);
      var o := Recv(held, fd, size, block);
      if o.msg.Some? {
        assert ms == [ms[0]] + ms[1..];
        MessagesInOrder(o.held, o.fd, size, block, ms[1..], n - 1);
      } else {
        MessagesInOrder(o.held, o.fd, size, block, ms, n - 1);
      }
    }
  }
}

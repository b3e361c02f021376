/** Reading and flushing one connected socket: the receive loops that DR_tcp_server2.py (lines 294-343,
    366-390) and DR_tcp_client2.py (lines 269-319, 343-367) have in common. */
module TcpStream {
  import opened Wrappers

  type Byte = bv8

  const BUFF_SIZE: nat := 4096

  /** Seconds of one socket timeout (COMM_TIMEOUT). */
  const TICK := 0.01

  /** How one `recv` call can end. `Arrives(k)`: at most k bytes are there; none at all is end of stream. */
  datatype Recv = TimedOut | OtherTimeout | SocketError | Arrives(k: nat)

  datatype ReadEnd =
    | Data(bytes: seq<Byte>)
    | Eof          // empty receive: -1
    | Failed       // -2
    | Expired      // -3
    | Waiting      // still in the loop when the observed outcomes end

  /** How a read ended, after how many receives, and where its receives left the peer's stream. */
  datatype ReadRun = ReadRun(end: ReadEnd, used: nat, position: nat)

  function Min(a: nat, b: nat): (m: nat)
    ensures m <= a && m <= b && (m == a || m == b)
  {
    if a < b then a else b
  }

  /** What one `recv` hands over, and where the stream stands afterwards: the kernel never gives a byte twice. */
  datatype Received = Received(bytes: seq<Byte>, position: nat)

  /** `recv(size)` at position `taken` of the peer's stream, when at most k bytes are there. */
  function Receive(stream: seq<Byte>, taken: nat, size: nat, k: nat): (r: Received)
    requires taken <= |stream|
    ensures taken <= r.position <= |stream| && r.bytes == stream[taken..r.position]
    ensures |r.bytes| <= size
    ensures r.bytes == [] <==> k == 0 || size == 0 || taken == |stream|
  {
    var next := taken + Min(k, Min(size, |stream| - taken));
    Received(stream[taken..next], next)
  }

  /** The kernel's side of a row of `recv(size)` calls: all they hand over, and where the stream ends up. */
  function Kernel(stream: seq<Byte>, taken: nat, size: nat, recvs: seq<Recv>): (r: Received)
    requires taken <= |stream|
    ensures taken <= r.position <= |stream| && r.bytes == stream[taken..r.position]
    decreases |recvs|
  {
    if recvs == [] then Received([], taken)
    else if recvs[0].Arrives? then
      var first := Receive(stream, taken, size, recvs[0].k);
      var rest := Kernel(stream, first.position, size, recvs[1..]);
      Received(first.bytes + rest.bytes, rest.position)
    else Kernel(stream, taken, size, recvs[1..])
  }

  /** The bytes that a read returns to its caller. */
  function Payload(end: ReadEnd): seq<Byte> {
    if end.Data? then end.bytes else []
  }

  /** The read loop, over the outcomes of its `recv` calls. */
  function ReadLoop(
    stream: seq<Byte>, taken: nat, size: nat, timeout: real, recvs: seq<Recv>, ticks: nat): (r: ReadRun)
    requires taken <= |stream|
    ensures (if recvs == [] then 0 else 1) <= r.used <= |recvs|
    decreases |recvs|
  {
    if recvs == [] then ReadRun(Waiting, 0, taken)
    else match recvs[0]
      case TimedOut =>
        if timeout != -1.0 && TICK * (ticks + 1) as real >= timeout then ReadRun(Expired, 1, taken)
        else
          var rest := ReadLoop(stream, taken, size, timeout, recvs[1..], if timeout == -1.0 then ticks else ticks + 1);
          rest.(used := rest.used + 1)
      case OtherTimeout => ReadRun(Failed, 1, taken)
      case SocketError => ReadRun(Failed, 1, taken)
      case Arrives(k) =>
        var rxd := Receive(stream, taken, size, k);
        ReadRun(if rxd.bytes == [] then Eof else Data(rxd.bytes), 1, rxd.position)
  }

  /** Lines 304-343 of the server file, 280-319 of the client file. Every receive moves the stream. */
  method ReceiveLoop(stream: seq<Byte>, taken: nat, size: nat, timeout: real, recvs: seq<Recv>)
    returns (end: ReadEnd, used: nat, position: nat)
    requires taken <= |stream|
    ensures ReadRun(end, used, position) == ReadLoop(stream, taken, size, timeout, recvs, 0)
  {
    var timeCnt: nat := 0;
    used, position := 0, taken;
    ghost var whole := ReadLoop(stream, taken, size, timeout, recvs, 0);
    while used < |recvs|
      invariant used <= |recvs| && position <= |stream|
      invariant var rest := ReadLoop(stream, position, size, timeout, recvs[used..], timeCnt);
                whole == rest.(used := rest.used + used)
    {
      var r := recvs[used];
      assert recvs[used..][1..] == recvs[used + 1..];
      used := used + 1;
      match r {
        case TimedOut =>
          if timeout != -1.0 {
            timeCnt := timeCnt + 1;
            if TICK * timeCnt as real >= timeout {
              return Expired, used, position;
            }
          }
        case OtherTimeout => return Failed, used, position;
        case SocketError => return Failed, used, position;
        case Arrives(k) =>
          var rxd := Receive(stream, position, size, k);
          position := rxd.position;
          return if |rxd.bytes| == 0 then Eof else Data(rxd.bytes), used, position;
      }
    }
    end := Waiting;
  }

  /* ---- The timeout ---- */

  /** Socket timeouts that a read of timeout t makes before it gives up: max(1, ceil(t / TICK)). */
  function TickBudget(t: real): (n: nat)
    requires t >= 0.0
    ensures n >= 1
  {
    var c := -((-100.0 * t).Floor);
    if c < 1 then 1 else c
  }

  function LeadingTimeouts(recvs: seq<Recv>): nat {
    if recvs == [] || recvs[0] != TimedOut then 0 else 1 + LeadingTimeouts(recvs[1..])
  }

  lemma BudgetIsCeiling(t: real, m: nat)
    requires t >= 0.0 && m >= 1
    ensures TICK * m as real >= t <==> m >= TickBudget(t)
  {
  }

  lemma {:induction false} ExpiryCount(
    stream: seq<Byte>, taken: nat, size: nat, t: real, recvs: seq<Recv>, ticks: nat)
    requires taken <= |stream| && t >= 0.0 && ticks < TickBudget(t)
    ensures var r := ReadLoop(stream, taken, size, t, recvs, ticks);
            && (r.end == Expired <==> LeadingTimeouts(recvs) >= TickBudget(t) - ticks)
            && (r.end == Expired ==> r.used == TickBudget(t) - ticks)
            && (|recvs| >= TickBudget(t) - ticks ==> r.end != Waiting)
            && r.used <= TickBudget(t) - ticks
    decreases |recvs|
  {
    if recvs != [] && recvs[0] == TimedOut {
      BudgetIsCeiling(t, ticks + 1);
      if ticks + 1 < TickBudget(t) {
        ExpiryCount(stream, taken, size, t, recvs[1..], ticks + 1);
      }
    }
  }

  /** For every timeout t >= 0 and every peer the read ends within n = max(1, ceil(t / TICK)) receives; it
      returns -3 exactly when the first n all time out, after exactly n; and for t > 0 the n ticks last at
      least t and less than t plus one tick. */
  lemma TimedReadBound(stream: seq<Byte>, taken: nat, size: nat, t: real, recvs: seq<Recv>)
    requires taken <= |stream| && t >= 0.0
    ensures var n, r := TickBudget(t), ReadLoop(stream, taken, size, t, recvs, 0);
            && (|recvs| >= n ==> r.end != Waiting)
            && r.used <= n
            && (r.end == Expired <==> LeadingTimeouts(recvs) >= n)
            && (r.end == Expired ==> r.used == n)
            && (t > 0.0 ==> t <= TICK * n as real < t + TICK)
  {
    ExpiryCount(stream, taken, size, t, recvs, 0);
    BudgetIsCeiling(t, TickBudget(t));
  }

  /** With timeout -1 a read never expires. */
  lemma {:induction false} UntimedReadNeverExpires(
    stream: seq<Byte>, taken: nat, size: nat, recvs: seq<Recv>, ticks: nat)
    requires taken <= |stream|
    ensures ReadLoop(stream, taken, size, -1.0, recvs, ticks).end != Expired
    decreases |recvs|
  {
    if recvs != [] {
      UntimedReadNeverExpires(stream, taken, size, recvs[1..], ticks);
    }
  }

  /** Whatever way a read ends, what the kernel handed over in the receives it made is what it returns. */
  lemma {:induction false} ReadMatchesKernel(
    stream: seq<Byte>, taken: nat, size: nat, timeout: real, recvs: seq<Recv>, ticks: nat)
    requires taken <= |stream|
    ensures var r := ReadLoop(stream, taken, size, timeout, recvs, ticks);
            Kernel(stream, taken, size, recvs[..r.used]) == Received(Payload(r.end), r.position)
    decreases |recvs|
  {
    if recvs != [] {
      var used := ReadLoop(stream, taken, size, timeout, recvs, ticks).used;
      assert recvs[..used][0] == recvs[0] && recvs[..used][1..] == recvs[1..][..used - 1];
      if recvs[0] == TimedOut {
        ReadMatchesKernel(stream, taken, size, timeout, recvs[1..], if timeout == -1.0 then ticks else ticks + 1);
      }
    }
  }

  /** A read returns exactly the bytes its receives took from the stream: the next 1 to `size` bytes on
      success, and nothing at end of stream, on an error or on expiry. */
  lemma {:induction false} ReadReturnsWhatItTakes(
    stream: seq<Byte>, taken: nat, size: nat, timeout: real, recvs: seq<Recv>, ticks: nat)
    requires taken <= |stream|
    ensures var r := ReadLoop(stream, taken, size, timeout, recvs, ticks);
            && taken <= r.position <= |stream|
            && Payload(r.end) == stream[taken..r.position]
            && (r.end.Data? ==> 1 <= |r.end.bytes| <= size)
    decreases |recvs|
  {
    if recvs != [] && recvs[0] == TimedOut {
      ReadReturnsWhatItTakes(stream, taken, size, timeout, recvs[1..], if timeout == -1.0 then ticks else ticks + 1);
    }
  }

  /* ---- When a read reports a closed connection ---- */

  predicate TimeoutOk(timeout: real) {
    timeout == -1.0 || timeout >= 0.0
  }

  /** The read gets an answer from `recv` before its time is up: the first outcome that is no timeout is
      a receive, and fewer timeouts than the budget come before it. */
  predicate Answered(recvs: seq<Recv>, timeout: real)
    requires TimeoutOk(timeout)
  {
    var i := LeadingTimeouts(recvs);
    i < |recvs| && recvs[i].Arrives? && (timeout == -1.0 || i < TickBudget(timeout))
  }

  /** A read ends as at end of stream if and only if it is answered with no bytes: because none came, none
      were asked for, or none are left. */
  lemma {:induction false} EofExactly(
    stream: seq<Byte>, taken: nat, size: nat, timeout: real, recvs: seq<Recv>, ticks: nat)
    requires taken <= |stream| && TimeoutOk(timeout)
    requires timeout == -1.0 || ticks < TickBudget(timeout)
    ensures var i := LeadingTimeouts(recvs);
            ReadLoop(stream, taken, size, timeout, recvs, ticks).end == Eof <==>
              && i < |recvs| && recvs[i].Arrives? && (timeout == -1.0 || ticks + i < TickBudget(timeout))
              && (recvs[i].k == 0 || size == 0 || taken == |stream|)
    decreases |recvs|
  {
    if recvs != [] && recvs[0] == TimedOut {
      if timeout == -1.0 {
        EofExactly(stream, taken, size, timeout, recvs[1..], ticks);
      } else {
        BudgetIsCeiling(timeout, ticks + 1);
        if ticks + 1 < TickBudget(timeout) {
          EofExactly(stream, taken, size, timeout, recvs[1..], ticks + 1);
        }
      }
    }
  }

  /** How a read that is not answered ends: it expires, if it has a timeout and its first n receives all time
      out; it fails on an error before that; and otherwise it is still waiting. It has taken nothing. */
  lemma {:induction false} UnansweredExactly(
    stream: seq<Byte>, taken: nat, size: nat, timeout: real, recvs: seq<Recv>, ticks: nat)
    requires taken <= |stream| && TimeoutOk(timeout)
    requires timeout == -1.0 || ticks < TickBudget(timeout)
    requires var i := LeadingTimeouts(recvs);
             !(i < |recvs| && recvs[i].Arrives? && (timeout == -1.0 || ticks + i < TickBudget(timeout)))
    ensures var i, r := LeadingTimeouts(recvs), ReadLoop(stream, taken, size, timeout, recvs, ticks);
            && r.position == taken
            && r.end == if timeout != -1.0 && ticks + i >= TickBudget(timeout) then Expired
                        else if i < |recvs| then Failed else Waiting
    decreases |recvs|
  {
    if recvs != [] && recvs[0] == TimedOut {
      if timeout == -1.0 {
        UnansweredExactly(stream, taken, size, timeout, recvs[1..], ticks);
      } else {
        BudgetIsCeiling(timeout, ticks + 1);
        if ticks + 1 < TickBudget(timeout) {
          UnansweredExactly(stream, taken, size, timeout, recvs[1..], ticks + 1);
        }
      }
    }
  }

  /** A read that is answered with k bytes due takes the smallest of k, the request and what is left. */
  lemma {:induction false} AnsweredExactly(
    stream: seq<Byte>, taken: nat, size: nat, timeout: real, recvs: seq<Recv>, ticks: nat)
    requires taken <= |stream| && TimeoutOk(timeout)
    requires timeout == -1.0 || ticks < TickBudget(timeout)
    requires var i := LeadingTimeouts(recvs);
             i < |recvs| && recvs[i].Arrives? && (timeout == -1.0 || ticks + i < TickBudget(timeout))
    ensures var i, r := LeadingTimeouts(recvs), ReadLoop(stream, taken, size, timeout, recvs, ticks);
            var amount := Min(recvs[i].k, Min(size, |stream| - taken));
            && r.position == taken + amount && r.used == i + 1
            && r.end == if amount == 0 then Eof else Data(stream[taken..taken + amount])
    decreases |recvs|
  {
    if recvs[0] == TimedOut {
      if timeout == -1.0 {
        AnsweredExactly(stream, taken, size, timeout, recvs[1..], ticks);
      } else {
        BudgetIsCeiling(timeout, ticks + 1);
        AnsweredExactly(stream, taken, size, timeout, recvs[1..], ticks + 1);
      }
    }
  }

  lemma UnansweredEnds(stream: seq<Byte>, taken: nat, size: nat, timeout: real, recvs: seq<Recv>)
    requires taken <= |stream| && TimeoutOk(timeout) && !Answered(recvs, timeout)
    ensures var r := ReadLoop(stream, taken, size, timeout, recvs, 0);
            r.position == taken && r.end == UnansweredEnd(recvs, timeout)
  {
    UnansweredExactly(stream, taken, size, timeout, recvs, 0);
  }

  /** How a read that gets no answer ends. */
  function UnansweredEnd(recvs: seq<Recv>, timeout: real): ReadEnd
    requires TimeoutOk(timeout)
  {
    if timeout != -1.0 && LeadingTimeouts(recvs) >= TickBudget(timeout) then Expired
    else if LeadingTimeouts(recvs) < |recvs| then Failed else Waiting
  }

  lemma AnswerTakes(stream: seq<Byte>, taken: nat, size: nat, timeout: real, recvs: seq<Recv>, m: nat)
    requires taken <= |stream| && TimeoutOk(timeout) && Answered(recvs, timeout)
    requires var k, left := recvs[LeadingTimeouts(recvs)].k, |stream| - taken;
             m <= k && m <= size && m <= left && (m == k || m == size || m == left)
    ensures taken + m <= |stream|
    ensures var r, bytes := ReadLoop(stream, taken, size, timeout, recvs, 0), stream[taken..taken + m];
            r.position == taken + m && r.end == if bytes == [] then Eof else Data(bytes)
  {
    AnsweredExactly(stream, taken, size, timeout, recvs, 0);
  }

  /* ---- Flush ---- */

  /** What one `select` does: it raises, or it reports an error, data (and the `recv` that follows), room to
      write or nothing. */
  datatype Poll = SelectRaises | PollError | Readable(recv: Recv) | Writable | NothingReady

  /** `code` is what flush returns, None while it is still polling; `dropped` are the bytes its receives put
      into `dummy`, one after the other; `position` is where they left the stream. */
  datatype FlushRun = FlushRun(code: Option<int>, dropped: seq<Byte>, position: nat)

  function FlushLoop(stream: seq<Byte>, taken: nat, polls: seq<Poll>): (r: FlushRun)
    requires taken <= |stream|
    decreases |polls|
  {
    if polls == [] then FlushRun(None, [], taken)
    else match polls[0]
      case SelectRaises => FlushRun(Some(-2), [], taken)
      case PollError => FlushRun(Some(-3), [], taken)
      case Readable(Arrives(k)) =>
        var dummy := Receive(stream, taken, BUFF_SIZE, k);
        var rest := FlushLoop(stream, dummy.position, polls[1..]);
        rest.(dropped := dummy.bytes + rest.dropped)
      case Readable(_) => FlushRun(Some(-2), [], taken)
      case Writable => FlushRun(Some(0), [], taken)
      case NothingReady => FlushLoop(stream, taken, polls[1..])
  }

  /** Lines 366-390 of the server file, 343-367 of the client file. */
  method DrainLoop(stream: seq<Byte>, taken: nat, polls: seq<Poll>)
    returns (code: Option<int>, dropped: seq<Byte>, position: nat)
    requires taken <= |stream|
    ensures FlushRun(code, dropped, position) == FlushLoop(stream, taken, polls)
  {
    dropped, position := [], taken;
    var i := 0;
    ghost var whole := FlushLoop(stream, taken, polls);
    while i < |polls|
      invariant i <= |polls| && position <= |stream|
      invariant var rest := FlushLoop(stream, position, polls[i..]);
                whole == rest.(dropped := dropped + rest.dropped)
    {
      var p := polls[i];
      assert polls[i..][1..] == polls[i + 1..];
      i := i + 1;
      match p {
        case SelectRaises => return Some(-2), dropped, position;
        case PollError => return Some(-3), dropped, position;
        case Readable(r) =>
          if r.Arrives? {
            var dummy := Receive(stream, position, BUFF_SIZE, r.k);
            ghost var rest := FlushLoop(stream, dummy.position, polls[i..]);
            assert dropped + (dummy.bytes + rest.dropped) == (dropped + dummy.bytes) + rest.dropped;
            dropped, position := dropped + dummy.bytes, dummy.position;
          } else {
            return Some(-2), dropped, position;
          }
        case Writable => return Some(0), dropped, position;
        case NothingReady =>
      }
    }
    code := None;
  }

  /** The outcomes of the receives that follow the readable polls. */
  function RecvsOf(polls: seq<Poll>): seq<Recv> {
    if polls == [] then []
    else (if polls[0].Readable? then [polls[0].recv] else []) + RecvsOf(polls[1..])
  }

  /** What the receives of a flush throw away is the next stretch of the stream, at most a buffer a poll. */
  lemma {:induction false} FlushDropsWhatItTakes(stream: seq<Byte>, taken: nat, polls: seq<Poll>)
    requires taken <= |stream|
    ensures var r := FlushLoop(stream, taken, polls);
            && taken <= r.position <= |stream|
            && r.dropped == stream[taken..r.position]
            && |r.dropped| <= 4096 * |polls|
    decreases |polls|
  {
    if polls != [] {
      var next := AfterPoll(stream, taken, polls[0]);
      FlushDropsWhatItTakes(stream, next, polls[1..]);
    }
  }

  /** A poll after which flush stops looking. */
  predicate Decisive(p: Poll) {
    !(p.NothingReady? || (p.Readable? && p.recv.Arrives?))
  }

  /** Where the stream stands after one poll. */
  function AfterPoll(stream: seq<Byte>, taken: nat, p: Poll): (next: nat)
    requires taken <= |stream|
    ensures taken <= next <= |stream|
  {
    if p.Readable? && p.recv.Arrives? then Receive(stream, taken, BUFF_SIZE, p.recv.k).position else taken
  }

  /** Flush keeps throwing data away while the socket is readable and stops at the first poll that is an
      error (-3), a select or receive that raises (-2), or only writable (0); it is still polling if there is
      none. What it throws away is all that the kernel hands over before that poll. */
  lemma {:induction false} FlushStopsAtFirstDecisive(stream: seq<Byte>, taken: nat, polls: seq<Poll>, i: nat)
    requires taken <= |stream| && i <= |polls| && forall j :: 0 <= j < i ==> !Decisive(polls[j])
    ensures var r, kernel := FlushLoop(stream, taken, polls), Kernel(stream, taken, 4096, RecvsOf(polls[..i]));
            i == |polls| || Decisive(polls[i]) ==>
              && Received(r.dropped, r.position) == kernel
              && r.code == (if i == |polls| then None
                            else if polls[i].Writable? then Some(0)
                            else if polls[i].PollError? then Some(-3) else Some(-2))
    decreases |polls|
  {
    if i > 0 {
      var next, rest := AfterPoll(stream, taken, polls[0]), RecvsOf(polls[1..][..i - 1]);
      assert polls[..i][0] == polls[0] && polls[..i][1..] == polls[1..][..i - 1];
      FlushStopsAtFirstDecisive(stream, next, polls[1..], i - 1);
      if polls[0].Readable? {
        assert ([polls[0].recv] + rest)[1..] == rest;
      } else {
        assert [] + rest == rest;
      }
    }
  }
}

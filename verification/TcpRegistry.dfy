/** The connection tables of DR_tcp_server2.py (lines 57-193, 269-390) and DR_tcp_client2.py (lines 54-167,
    245-367), with the sockets the kernel has open. The two files differ in what an attempt creates (a
    listener and an accepted socket, or one connecting socket), in the forbidden server port, and in how
    closing an unknown socket ends. A socket stands for its own id: ids are unique while objects live. */
module TcpRegistry {
  import opened TcpStream
  import opened Wrappers

  type Sock = nat

  datatype Kind = Server | Client

  /** One table entry: the connection and, on the server side, its listener. */
  datatype Entry = Entry(sock: Sock, listener: Option<Sock>)

  /** `conn` and `state` are the module dictionaries; `next`, `open` and `taken` belong to the kernel:
      the next fresh socket, the sockets created and not closed, and how far each stream has been read. `lost`
      are the open sockets of opens that ended in an OverflowError: no table and no caller knows them. */
  datatype Registry = Registry(
    conn: map<Sock, Entry>, state: map<Sock, int>, next: Sock, open: set<Sock>, lost: set<Sock>,
    taken: map<Sock, nat>)

  const EMPTY := Registry(map[], map[], 0, {}, {}, map[])

  const TP_SERVER_PORT := 12345

  /** The largest port that bind and connect take; a larger one raises OverflowError, which is no socket.error. */
  const MAX_PORT := 65535

  /** How one round of the open loop goes: bind, listen, accept or connect fails with a socket.error, or the
      round goes through, and then connects if the port is one. */
  datatype Attempt = Fails | Connects

  datatype Reply =
    | Opened(sock: Sock)
    | Code(res: int, data: Option<seq<Byte>>)
    | Cleaned
    | ValueError
    | OverflowError
    | KeyError
    | Busy          // still in its loop when the observed outcomes end

  datatype Call =
    | OpenCall(port: int, attempts: seq<Attempt>)
    | CloseCall(sock: Sock)
    | CleanCall
    | StateCall(sock: Sock)
    | ReadCall(sock: Sock, length: int, timeout: real, recvs: seq<Recv>)
    | FlushCall(sock: Sock, polls: seq<Poll>)

  datatype Effect = Effect(reg: Registry, reply: Reply)

  function Taken(reg: Registry, sock: Sock): nat {
    if sock in reg.taken then reg.taken[sock] else 0
  }

  /** The sockets one entry stores. */
  function Handles(e: Entry): set<Sock> {
    {e.sock} + if e.listener.Some? then {e.listener.value} else {}
  }

  predicate IsStored(conn: map<Sock, Entry>, s: Sock) {
    exists k :: k in conn && s in Handles(conn[k])
  }

  predicate PortOk(kind: Kind, port: int) {
    port >= 0 && !(kind == Server && port == TP_SERVER_PORT)
  }

  /** One successful open: listener first on the server side. */
  function Connected(kind: Kind, reg: Registry): Effect {
    if kind == Server then
      var listener, sock := reg.next, reg.next + 1;
      Effect(reg.(conn := reg.conn[sock := Entry(sock, Some(listener))], state := reg.state[sock := 1],
                  next := reg.next + 2, open := reg.open + {listener, sock}), Opened(sock))
    else
      var sock := reg.next;
      Effect(reg.(conn := reg.conn[sock := Entry(sock, None)], state := reg.state[sock := 1],
                  next := reg.next + 1, open := reg.open + {sock}), Opened(sock))
  }

  /** The socket made for this round stays open. */
  function Overflowed(reg: Registry): Effect {
    Effect(reg.(next := reg.next + 1, open := reg.open + {reg.next}, lost := reg.lost + {reg.next}), OverflowError)
  }

  function OpenLoop(kind: Kind, reg: Registry, port: int, attempts: seq<Attempt>): Effect
    decreases |attempts|
  {
    if attempts == [] then Effect(reg, Busy)
    else if attempts[0] != Connects then OpenLoop(kind, reg.(next := reg.next + 1), port, attempts[1..])
    else if port > MAX_PORT then Overflowed(reg)
    else Connected(kind, reg)
  }

  function CloseEffect(kind: Kind, reg: Registry, sock: Sock): Effect {
    if sock in reg.conn && sock in reg.state then
      Effect(reg.(conn := reg.conn - {sock}, state := reg.state - {sock},
                  open := reg.open - Handles(reg.conn[sock])), Code(0, None))
    else if kind == Server then Effect(reg, Code(-1, None))
    else Effect(reg.(open := reg.open - {sock}, lost := reg.lost - {sock}), KeyError)
  }

  function StateOf(reg: Registry, sock: Sock): int {
    if sock in reg.conn && sock in reg.state then reg.state[sock] else 0
  }

  function RequestSize(length: int): nat
    requires length == -1 || length >= 0
  {
    if length == -1 then BUFF_SIZE else length
  }

  /** What the end of the read loop leaves in the tables, and the reply. The stream stands where the
      receives of the loop left it, however it ended. */
  function AfterRead(reg: Registry, sock: Sock, end: ReadEnd, position: nat): Effect {
    var moved := reg.(taken := reg.taken[sock := position]);
    match end
    case Data(bytes) => Effect(moved, Code(|bytes|, Some(bytes)))
    case Eof => Effect(moved.(state := moved.state[sock := 0]), Code(-1, None))
    case Failed => Effect(moved, Code(-2, None))
    case Expired => Effect(moved, Code(-3, None))
    case Waiting => Effect(moved, Busy)
  }

  /** read: validation, the membership test, the loop. */
  function ReadEffect(
    reg: Registry, peer: Sock -> seq<Byte>, sock: Sock, length: int, timeout: real, recvs: seq<Recv>): Effect
  {
    if (length != -1 && length < 0) || (timeout != -1.0 && timeout < 0.0) then Effect(reg, ValueError)
    else if sock !in reg.conn then Effect(reg, Code(-1, None))
    else if Taken(reg, sock) > |peer(sock)| then Effect(reg, Busy)  // no such position
    else
      var r := ReadLoop(peer(sock), Taken(reg, sock), RequestSize(length), timeout, recvs, 0);
      AfterRead(reg, sock, r.end, r.position)
  }

  function FlushEffect(reg: Registry, peer: Sock -> seq<Byte>, sock: Sock, polls: seq<Poll>): Effect {
    if sock !in reg.conn then Effect(reg, Code(-1, None))
    else if Taken(reg, sock) > |peer(sock)| then Effect(reg, Busy)  // no such position
    else
      var r := FlushLoop(peer(sock), Taken(reg, sock), polls);
      Effect(reg.(taken := reg.taken[sock := r.position]),
             if r.code.Some? then Code(r.code.value, None) else Busy)
  }

  function CleanEffect(reg: Registry): Effect {
    Effect(reg.(conn := map[], state := map[], open := set s | s in reg.open && !IsStored(reg.conn, s)), Cleaned)
  }

  /** One call on the module, and its reply. */
  function Do(kind: Kind, reg: Registry, peer: Sock -> seq<Byte>, call: Call): Effect {
    match call
    case OpenCall(port, attempts) =>
      if PortOk(kind, port) then OpenLoop(kind, reg, port, attempts) else Effect(reg, ValueError)
    case CloseCall(sock) => CloseEffect(kind, reg, sock)
    case CleanCall => CleanEffect(reg)
    case StateCall(sock) => Effect(reg, Code(StateOf(reg, sock), None))
    case ReadCall(sock, length, timeout, recvs) => ReadEffect(reg, peer, sock, length, timeout, recvs)
    case FlushCall(sock, polls) => FlushEffect(reg, peer, sock, polls)
  }

  function RunCalls(kind: Kind, reg: Registry, peer: Sock -> seq<Byte>, calls: seq<Call>): Registry
    decreases |calls|
  {
    if calls == [] then reg else RunCalls(kind, Do(kind, reg, peer, calls[0]).reg, peer, calls[1..])
  }

  /* ---- What every run keeps ---- */

  predicate EntryOk(kind: Kind, e: Entry, k: Sock, next: Sock) {
    && e.sock == k && (kind == Server <==> e.listener.Some?)
    && forall s :: s in Handles(e) ==> s < next
  }

  ghost predicate EntriesOk(kind: Kind, conn: map<Sock, Entry>, next: Sock) {
    && (forall k :: k in conn ==> EntryOk(kind, conn[k], k, next))
    && (forall j, k :: j in conn && k in conn && j != k ==> Handles(conn[j]) !! Handles(conn[k]))
  }

  /** The sockets created and not closed are exactly those in the table and, apart from them, the lost ones. */
  ghost predicate OpenOk(conn: map<Sock, Entry>, open: set<Sock>, lost: set<Sock>) {
    && (forall s :: s in open <==> IsStored(conn, s) || s in lost)
    && (forall s :: s in lost ==> !IsStored(conn, s))
  }

  /** Both tables have the same keys and the states are 0 or 1. */
  ghost predicate TablesOk(conn: map<Sock, Entry>, state: map<Sock, int>) {
    conn.Keys == state.Keys && forall k :: k in state ==> state[k] == 0 || state[k] == 1
  }

  /** Same keys in both tables, states 0 or 1, each key the id of its socket, no socket stored twice, and
      the sockets created and not closed exactly the stored ones and the lost ones. */
  ghost predicate Consistent(kind: Kind, reg: Registry) {
    && TablesOk(reg.conn, reg.state)
    && EntriesOk(kind, reg.conn, reg.next)
    && OpenOk(reg.conn, reg.open, reg.lost)
    && (forall s :: s in reg.lost ==> s < reg.next)
  }

  lemma StoredIsOld(kind: Kind, conn: map<Sock, Entry>, next: Sock, s: Sock)
    requires EntriesOk(kind, conn, next) && IsStored(conn, s)
    ensures s < next
  {
    var k :| k in conn && s in Handles(conn[k]);
    assert EntryOk(kind, conn[k], k, next);
  }

  lemma StoredAfterAdd(conn: map<Sock, Entry>, e: Entry, s: Sock)
    requires e.sock !in conn
    ensures IsStored(conn[e.sock := e], s) <==> IsStored(conn, s) || s in Handles(e)
  {
    var conn' := conn[e.sock := e];
    if IsStored(conn, s) {
      var k :| k in conn && s in Handles(conn[k]);
      assert k in conn' && s in Handles(conn'[k]);
    }
    if s in Handles(e) { assert e.sock in conn' && s in Handles(conn'[e.sock]); }
  }

  lemma AddEntry(kind: Kind, conn: map<Sock, Entry>, next: Sock, e: Entry, next': Sock)
    requires EntriesOk(kind, conn, next)
    requires EntryOk(kind, e, e.sock, next') && next <= next' && forall s :: s in Handles(e) ==> s >= next
    ensures e.sock !in conn && EntriesOk(kind, conn[e.sock := e], next')
    ensures forall s :: s in Handles(e) ==> !IsStored(conn, s)
  {
    assert e.sock in Handles(e);
    forall k | k in conn ensures k < next && EntryOk(kind, conn[k], k, next') && Handles(conn[k]) !! Handles(e) {
      assert EntryOk(kind, conn[k], k, next);
      assert k in Handles(conn[k]);
    }
  }

  lemma StoredAfterRemove(kind: Kind, conn: map<Sock, Entry>, next: Sock, sock: Sock, s: Sock)
    requires EntriesOk(kind, conn, next) && sock in conn
    ensures IsStored(conn - {sock}, s) <==> IsStored(conn, s) && s !in Handles(conn[sock])
  {
    var conn' := conn - {sock};
    if IsStored(conn, s) {
      var k :| k in conn && s in Handles(conn[k]);
      assert s !in Handles(conn[sock]) ==> k in conn' && s in Handles(conn'[k]);
    }
    if IsStored(conn', s) {
      var k :| k in conn' && s in Handles(conn'[k]);
      assert Handles(conn[k]) !! Handles(conn[sock]);
    }
  }

  lemma RemoveEntry(kind: Kind, conn: map<Sock, Entry>, open: set<Sock>, lost: set<Sock>, next: Sock, sock: Sock)
    requires EntriesOk(kind, conn, next) && OpenOk(conn, open, lost) && sock in conn
    ensures EntriesOk(kind, conn - {sock}, next) && OpenOk(conn - {sock}, open - Handles(conn[sock]), lost)
  {
    forall s ensures IsStored(conn - {sock}, s) <==> IsStored(conn, s) && s !in Handles(conn[sock]) {
      StoredAfterRemove(kind, conn, next, sock, s);
    }
    forall s | s in Handles(conn[sock]) ensures s !in lost {
      assert IsStored(conn, s);
    }
  }

  lemma AddOpen(conn: map<Sock, Entry>, open: set<Sock>, lost: set<Sock>, e: Entry)
    requires OpenOk(conn, open, lost) && e.sock !in conn
    requires forall s :: s in Handles(e) ==> s !in lost
    ensures OpenOk(conn[e.sock := e], open + Handles(e), lost)
  {
    forall s ensures IsStored(conn[e.sock := e], s) <==> IsStored(conn, s) || s in Handles(e) {
      StoredAfterAdd(conn, e, s);
    }
  }

  /** The tables with one more entry. */
  function Stored(reg: Registry, e: Entry, next: Sock): Registry {
    reg.(conn := reg.conn[e.sock := e], state := reg.state[e.sock := 1], next := next, open := reg.open + Handles(e))
  }

  lemma StoredConsistent(kind: Kind, reg: Registry, e: Entry, next: Sock)
    requires Consistent(kind, reg) && EntryOk(kind, e, e.sock, next) && reg.next <= next
    requires forall s :: s in Handles(e) ==> s >= reg.next
    ensures Consistent(kind, Stored(reg, e, next))
  {
    AddEntry(kind, reg.conn, reg.next, e, next);
    AddOpen(reg.conn, reg.open, reg.lost, e);
  }

  lemma ConnectedConsistent(kind: Kind, reg: Registry)
    requires Consistent(kind, reg)
    ensures Consistent(kind, Connected(kind, reg).reg)
  {
    if kind == Server {
      var e := Entry(reg.next + 1, Some(reg.next));
      StoredConsistent(kind, reg, e, reg.next + 2);
      ConnectedIsStored(kind, reg, e);
    } else {
      var e := Entry(reg.next, None);
      StoredConsistent(kind, reg, e, reg.next + 1);
      ConnectedIsStored(kind, reg, e);
    }
  }

  lemma ConnectedIsStored(kind: Kind, reg: Registry, e: Entry)
    requires e == if kind == Server then Entry(reg.next + 1, Some(reg.next)) else Entry(reg.next, None)
    ensures Connected(kind, reg).reg == Stored(reg, e, if kind == Server then reg.next + 2 else reg.next + 1)
  {
    assert Handles(e) == if kind == Server then {reg.next, reg.next + 1} else {reg.next};
  }

  lemma OverflowedConsistent(kind: Kind, reg: Registry)
    requires Consistent(kind, reg)
    ensures Consistent(kind, Overflowed(reg).reg)
  {
    if IsStored(reg.conn, reg.next) { StoredIsOld(kind, reg.conn, reg.next, reg.next); }
    LaterNext(kind, reg.conn, reg.next, reg.next + 1);
  }

  lemma LaterNext(kind: Kind, conn: map<Sock, Entry>, next: Sock, next': Sock)
    requires EntriesOk(kind, conn, next) && next <= next'
    ensures EntriesOk(kind, conn, next')
  {
    forall k | k in conn ensures EntryOk(kind, conn[k], k, next') {
      assert EntryOk(kind, conn[k], k, next);
    }
  }

  lemma {:induction false} OpenConsistent(kind: Kind, reg: Registry, port: int, attempts: seq<Attempt>)
    requires Consistent(kind, reg)
    ensures Consistent(kind, OpenLoop(kind, reg, port, attempts).reg)
    ensures reg.next <= OpenLoop(kind, reg, port, attempts).reg.next
    decreases |attempts|
  {
    if attempts != [] {
      if attempts[0] != Connects {
        LaterNext(kind, reg.conn, reg.next, reg.next + 1);
        OpenConsistent(kind, reg.(next := reg.next + 1), port, attempts[1..]);
      } else if port > MAX_PORT {
        OverflowedConsistent(kind, reg);
      } else {
        ConnectedConsistent(kind, reg);
      }
    }
  }

  lemma CloseConsistent(kind: Kind, reg: Registry, sock: Sock)
    requires Consistent(kind, reg)
    ensures Consistent(kind, CloseEffect(kind, reg, sock).reg)
  {
    if sock in reg.conn {
      RemoveEntry(kind, reg.conn, reg.open, reg.lost, reg.next, sock);
    } else if kind == Client {
      UnknownClientNotStored(reg, sock);
    }
  }

  lemma UnknownClientNotStored(reg: Registry, sock: Sock)
    requires EntriesOk(Client, reg.conn, reg.next) && sock !in reg.conn
    ensures !IsStored(reg.conn, sock)
  {
    forall k | k in reg.conn ensures Handles(reg.conn[k]) == {k} {
      assert EntryOk(Client, reg.conn[k], k, reg.next);
    }
  }

  /** Reads and flushes touch only the state of a known socket and the stream positions. */
  lemma ReadTouches(
    reg: Registry, peer: Sock -> seq<Byte>, sock: Sock, length: int, timeout: real, recvs: seq<Recv>)
    ensures var r := ReadEffect(reg, peer, sock, length, timeout, recvs).reg;
            && r.conn == reg.conn && r.next == reg.next && r.open == reg.open && r.lost == reg.lost
            && (r.state == reg.state || (sock in reg.conn && r.state == reg.state[sock := 0]))
  {
  }

  lemma CallConsistent(kind: Kind, reg: Registry, peer: Sock -> seq<Byte>, call: Call)
    requires Consistent(kind, reg)
    ensures Consistent(kind, Do(kind, reg, peer, call).reg)
    ensures reg.next <= Do(kind, reg, peer, call).reg.next
  {
    match call
    case OpenCall(port, attempts) => OpenConsistent(kind, reg, port, attempts);
    case CloseCall(sock) => CloseConsistent(kind, reg, sock);
    case CleanCall =>
      var r := CleanEffect(reg).reg;
      assert r.open == reg.lost;
      assert forall s :: !IsStored(r.conn, s);
    case StateCall(_) =>
    case ReadCall(sock, length, timeout, recvs) => ReadTouches(reg, peer, sock, length, timeout, recvs);
    case FlushCall(_, _) =>
  }

  lemma {:induction false} RunConsistent(kind: Kind, reg: Registry, peer: Sock -> seq<Byte>, calls: seq<Call>)
    requires Consistent(kind, reg)
    ensures Consistent(kind, RunCalls(kind, reg, peer, calls))
    decreases |calls|
  {
    if calls != [] {
      CallConsistent(kind, reg, peer, calls[0]);
      RunConsistent(kind, Do(kind, reg, peer, calls[0]).reg, peer, calls[1..]);
    }
  }

  lemma OpenIsOld(kind: Kind, reg: Registry)
    requires Consistent(kind, reg)
    ensures forall s :: s in reg.open ==> s < reg.next
  {
    forall s | s in reg.open ensures s < reg.next {
      if s !in reg.lost { StoredIsOld(kind, reg.conn, reg.next, s); }
    }
  }

  lemma NoEntryOpenIsLost(kind: Kind, reg: Registry)
    requires Consistent(kind, reg) && reg.conn == map[]
    ensures reg.open == reg.lost
  {
    assert forall s :: !IsStored(reg.conn, s);
  }

  lemma EmptyConsistent(kind: Kind)
    ensures Consistent(kind, EMPTY)
  {
    assert forall s :: !IsStored(EMPTY.conn, s);
  }

  /** No port of these calls is too large. */
  ghost predicate PortsFit(calls: seq<Call>) {
    forall i :: 0 <= i < |calls| && calls[i].OpenCall? ==> calls[i].port <= MAX_PORT
  }

  lemma {:induction false} OpenLosesExactly(kind: Kind, reg: Registry, port: int, attempts: seq<Attempt>)
    ensures var e := OpenLoop(kind, reg, port, attempts);
            && (e.reply == OverflowError <==> port > MAX_PORT && Connects in attempts)
            && (if e.reply == OverflowError then exists s :: s >= reg.next && e.reg.lost == reg.lost + {s}
                else e.reg.lost == reg.lost)
    decreases |attempts|
  {
    if attempts != [] {
      assert attempts == [attempts[0]] + attempts[1..];
      if attempts[0] != Connects {
        OpenLosesExactly(kind, reg.(next := reg.next + 1), port, attempts[1..]);
      } else if port > MAX_PORT {
        assert reg.next >= reg.next && Overflowed(reg).reg.lost == reg.lost + {reg.next};
      }
    }
  }

  /** A call leaves a socket behind that no table and no caller knows if and only if it ends in an
      OverflowError: an open with a port above 65535 that gets as far as using it. */
  lemma CallLosesExactly(kind: Kind, reg: Registry, peer: Sock -> seq<Byte>, call: Call)
    requires Consistent(kind, reg)
    ensures var e := Do(kind, reg, peer, call);
            && (e.reply == OverflowError <==>
                  call.OpenCall? && PortOk(kind, call.port) && call.port > MAX_PORT && Connects in call.attempts)
            && (e.reply == OverflowError <==> !(e.reg.lost <= reg.lost))
  {
    match call
    case OpenCall(port, attempts) => OpenLosesExactly(kind, reg, port, attempts);
    case ReadCall(sock, length, timeout, recvs) => ReadTouches(reg, peer, sock, length, timeout, recvs);
    case _ =>
  }

  lemma {:induction false} RunLosesNothing(kind: Kind, reg: Registry, peer: Sock -> seq<Byte>, calls: seq<Call>)
    requires Consistent(kind, reg) && reg.lost == {} && PortsFit(calls)
    ensures RunCalls(kind, reg, peer, calls).lost == {}
    decreases |calls|
  {
    if calls != [] {
      var r := Do(kind, reg, peer, calls[0]).reg;
      CallLosesExactly(kind, reg, peer, calls[0]);
      CallConsistent(kind, reg, peer, calls[0]);
      RunLosesNothing(kind, r, peer, calls[1..]);
    }
  }

  /** Conservation of sockets and tables over every single-threaded run: after any calls the two tables have
      the same keys and the open sockets are exactly the stored ones, but for those lost to an OverflowError,
      of which there are none while every port fits; and a clean leaves nothing else open. */
  lemma SocketConservation(kind: Kind, peer: Sock -> seq<Byte>, calls: seq<Call>)
    ensures var reg := RunCalls(kind, EMPTY, peer, calls);
            && Consistent(kind, reg)
            && (PortsFit(calls) ==> reg.lost == {})
            && Do(kind, reg, peer, CleanCall).reg.open == reg.lost
            && Do(kind, reg, peer, CleanCall).reg.conn == map[]
  {
    var reg := RunCalls(kind, EMPTY, peer, calls);
    EmptyConsistent(kind);
    RunConsistent(kind, EMPTY, peer, calls);
    if PortsFit(calls) { RunLosesNothing(kind, EMPTY, peer, calls); }
    assert Do(kind, reg, peer, CleanCall).reg.open == reg.lost;
  }

  lemma {:induction false} OpenKeepsOthers(
    kind: Kind, reg: Registry, port: int, attempts: seq<Attempt>, sock: Sock)
    requires sock < reg.next
    ensures StateOf(OpenLoop(kind, reg, port, attempts).reg, sock) == StateOf(reg, sock)
    ensures reg.next <= OpenLoop(kind, reg, port, attempts).reg.next
    decreases |attempts|
  {
    if attempts != [] && attempts[0] != Connects {
      OpenKeepsOthers(kind, reg.(next := reg.next + 1), port, attempts[1..], sock);
    }
  }

  lemma CallKeepsDisconnected(kind: Kind, reg: Registry, peer: Sock -> seq<Byte>, call: Call, sock: Sock)
    requires sock < reg.next && StateOf(reg, sock) == 0
    ensures StateOf(Do(kind, reg, peer, call).reg, sock) == 0
  {
    match call
    case OpenCall(port, attempts) => OpenKeepsOthers(kind, reg, port, attempts, sock);
    case ReadCall(s, length, timeout, recvs) => ReadTouches(reg, peer, s, length, timeout, recvs);
    case _ =>
  }

  /** Once a socket reads as disconnected, after end of stream or after it was closed, it does so for ever. */
  lemma {:induction false} DisconnectedForGood(
    kind: Kind, reg: Registry, peer: Sock -> seq<Byte>, calls: seq<Call>, sock: Sock)
    requires Consistent(kind, reg) && sock < reg.next && StateOf(reg, sock) == 0
    ensures StateOf(RunCalls(kind, reg, peer, calls), sock) == 0
    decreases |calls|
  {
    if calls != [] {
      var r := Do(kind, reg, peer, calls[0]).reg;
      CallConsistent(kind, reg, peer, calls[0]);
      CallKeepsDisconnected(kind, reg, peer, calls[0], sock);
      DisconnectedForGood(kind, r, peer, calls[1..], sock);
    }
  }

  /* ---- Stream conservation ---- */

  ghost predicate PositionsOk(reg: Registry, peer: Sock -> seq<Byte>) {
    forall s: Sock :: Taken(reg, s) <= |peer(s)|
  }

  lemma {:induction false} OpenKeepsStreams(kind: Kind, reg: Registry, port: int, attempts: seq<Attempt>)
    ensures OpenLoop(kind, reg, port, attempts).reg.taken == reg.taken
    decreases |attempts|
  {
    if attempts != [] && attempts[0] != Connects {
      OpenKeepsStreams(kind, reg.(next := reg.next + 1), port, attempts[1..]);
    }
  }

  /** What the receives of a flush on s put into `dummy`. */
  function Dropped(reg: Registry, peer: Sock -> seq<Byte>, s: Sock, polls: seq<Poll>): seq<Byte> {
    if s in reg.conn && Taken(reg, s) <= |peer(s)| then FlushLoop(peer(s), Taken(reg, s), polls).dropped else []
  }

  /** The data in a reply. */
  function ReplyData(reply: Reply): seq<Byte> {
    if reply.Code? && reply.data.Some? then reply.data.value else []
  }

  /** What one call hands to its caller from socket s, or, for a flush, throws away. */
  function Delivered(kind: Kind, reg: Registry, peer: Sock -> seq<Byte>, call: Call, s: Sock): seq<Byte> {
    if call.ReadCall? && call.sock == s then ReplyData(Do(kind, reg, peer, call).reply)
    else if call.FlushCall? && call.sock == s then Dropped(reg, peer, s, call.polls)
    else []
  }

  function AllDelivered(kind: Kind, reg: Registry, peer: Sock -> seq<Byte>, calls: seq<Call>, s: Sock): seq<Byte>
    decreases |calls|
  {
    if calls == [] then []
    else
      Delivered(kind, reg, peer, calls[0], s)
      + AllDelivered(kind, Do(kind, reg, peer, calls[0]).reg, peer, calls[1..], s)
  }

  /** The reply carries the payload, and res > 0 goes with a payload. */
  lemma AfterReadReply(reg: Registry, sock: Sock, end: ReadEnd, position: nat)
    ensures var e := AfterRead(reg, sock, end, position);
            && Taken(e.reg, sock) == position && ReplyData(e.reply) == Payload(end)
            && (e.reply.Code? && e.reply.res > 0 <==> Payload(end) != [])
            && (e.reply.Code? && e.reply.res > 0 ==> end.Data? && e.reply.res == |end.bytes|)
  {
  }

  /** The reply of a read: a success carries 1 <= res = len(data) <= requested size; and whatever the reply,
      the receives have consumed exactly the data in it: the next res bytes on success, otherwise nothing. */
  lemma ReadReply(
    reg: Registry, peer: Sock -> seq<Byte>, sock: Sock, length: int, timeout: real, recvs: seq<Recv>)
    requires Taken(reg, sock) <= |peer(sock)|
    ensures var e := ReadEffect(reg, peer, sock, length, timeout, recvs);
            && Taken(reg, sock) <= Taken(e.reg, sock) <= |peer(sock)|
            && ReplyData(e.reply) == peer(sock)[Taken(reg, sock)..Taken(e.reg, sock)]
            && (e.reply.Code? && e.reply.res > 0 <==> ReplyData(e.reply) != [])
            && (e.reply.Code? && e.reply.res > 0 ==> length >= -1 && e.reply.res == |ReplyData(e.reply)|)
            && (length >= 0 ==> |ReplyData(e.reply)| <= length)
            && (length == -1 ==> |ReplyData(e.reply)| <= 4096)
  {
    if length >= -1 && (timeout == -1.0 || timeout >= 0.0) && sock in reg.conn {
      var r := ReadLoop(peer(sock), Taken(reg, sock), RequestSize(length), timeout, recvs, 0);
      ReadReturnsWhatItTakes(peer(sock), Taken(reg, sock), RequestSize(length), timeout, recvs, 0);
      AfterReadReply(reg, sock, r.end, r.position);
    }
  }

  lemma ReadKeepsOthers(
    reg: Registry, peer: Sock -> seq<Byte>, sock: Sock, length: int, timeout: real, recvs: seq<Recv>, s: Sock)
    requires s != sock
    ensures Taken(ReadEffect(reg, peer, sock, length, timeout, recvs).reg, s) == Taken(reg, s)
  {
  }

  lemma CallTakesNext(kind: Kind, reg: Registry, peer: Sock -> seq<Byte>, call: Call, s: Sock)
    requires PositionsOk(reg, peer)
    ensures var r := Do(kind, reg, peer, call).reg;
            && Taken(reg, s) <= Taken(r, s) <= |peer(s)|
            && Delivered(kind, reg, peer, call, s) == peer(s)[Taken(reg, s)..Taken(r, s)]
  {
    assert Taken(reg, s) <= |peer(s)|;
    match call
    case OpenCall(port, attempts) => OpenKeepsStreams(kind, reg, port, attempts);
    case ReadCall(sock, length, timeout, recvs) =>
      assert Taken(reg, sock) <= |peer(sock)|;
      ReadReply(reg, peer, sock, length, timeout, recvs);
      if s != sock { ReadKeepsOthers(reg, peer, sock, length, timeout, recvs, s); }
    case FlushCall(sock, polls) =>
      if sock in reg.conn {
        assert Taken(reg, sock) <= |peer(sock)|;
        FlushDropsWhatItTakes(peer(sock), Taken(reg, sock), polls);
      }
    case _ =>
  }

  lemma CallKeepsPositions(kind: Kind, reg: Registry, peer: Sock -> seq<Byte>, call: Call)
    requires PositionsOk(reg, peer)
    ensures PositionsOk(Do(kind, reg, peer, call).reg, peer)
  {
    forall q: Sock ensures Taken(Do(kind, reg, peer, call).reg, q) <= |peer(q)| {
      CallTakesNext(kind, reg, peer, call, q);
    }
  }

  lemma Glue(stream: seq<Byte>, a: nat, b: nat, rest: seq<Byte>)
    requires a <= b <= |stream|
    ensures stream[..a] + (stream[a..b] + rest) == stream[..b] + rest
  {
    assert stream[..a] + stream[a..b] == stream[..b];
  }

  /** Nothing is lost, duplicated or reordered: over any run of calls, on any sockets, the payloads returned
      for socket s and the bytes its flushes received and dropped, in order, are exactly the stretch of the
      peer's stream that the receives on s have consumed. */
  lemma {:induction false} StreamConservation(
    kind: Kind, reg: Registry, peer: Sock -> seq<Byte>, calls: seq<Call>, s: Sock)
    requires PositionsOk(reg, peer)
    ensures var r := RunCalls(kind, reg, peer, calls);
            && Taken(reg, s) <= Taken(r, s) <= |peer(s)|
            && peer(s)[..Taken(reg, s)] + AllDelivered(kind, reg, peer, calls, s) == peer(s)[..Taken(r, s)]
    decreases |calls|
  {
    assert Taken(reg, s) <= |peer(s)|;
    if calls != [] {
      var r1 := Do(kind, reg, peer, calls[0]).reg;
      CallKeepsPositions(kind, reg, peer, calls[0]);
      CallTakesNext(kind, reg, peer, calls[0], s);
      StreamConservation(kind, r1, peer, calls[1..], s);
      Glue(peer(s), Taken(reg, s), Taken(r1, s), AllDelivered(kind, r1, peer, calls[1..], s));
    }
  }

  /* ---- Every reply ---- */

  /** What a read asks for: the length given, or a buffer. */
  predicate Asks(length: int, want: nat) {
    if length == -1 then want == 4096 else want == length
  }

  /** A valid read on a stored socket that is answered with k bytes due hands over exactly the next m bytes,
      m being the smallest of k, the bytes asked for and the bytes left; with m == 0 it reports -1 and state 0. */
  lemma AnsweredReadReply(
    reg: Registry, peer: Sock -> seq<Byte>, sock: Sock, length: int, timeout: real, recvs: seq<Recv>, want: nat, m: nat)
    requires Taken(reg, sock) <= |peer(sock)| && sock in reg.conn
    requires length >= -1 && TimeoutOk(timeout) && Answered(recvs, timeout) && Asks(length, want)
    requires var k, left := recvs[LeadingTimeouts(recvs)].k, |peer(sock)| - Taken(reg, sock);
             m <= k && m <= want && m <= left && (m == k || m == want || m == left)
    ensures var e, from := ReadEffect(reg, peer, sock, length, timeout, recvs), Taken(reg, sock);
            && e.reply == (if m == 0 then Code(-1, None) else Code(m, Some(peer(sock)[from..from + m])))
            && e.reg == reg.(taken := reg.taken[sock := from + m],
                             state := if m == 0 then reg.state[sock := 0] else reg.state)
  {
    var stream, from := peer(sock), Taken(reg, sock);
    AnswerTakes(stream, from, want, timeout, recvs, m);
    ValidRead(reg, peer, sock, length, timeout, recvs, want);
    AfterAnswer(reg, sock, stream[from..from + m], from + m);
  }

  lemma ValidRead(
    reg: Registry, peer: Sock -> seq<Byte>, sock: Sock, length: int, timeout: real, recvs: seq<Recv>, want: nat)
    requires Taken(reg, sock) <= |peer(sock)| && sock in reg.conn
    requires length >= -1 && TimeoutOk(timeout) && Asks(length, want)
    ensures var r := ReadLoop(peer(sock), Taken(reg, sock), want, timeout, recvs, 0);
            ReadEffect(reg, peer, sock, length, timeout, recvs) == AfterRead(reg, sock, r.end, r.position)
  {
  }

  lemma AfterAnswer(reg: Registry, sock: Sock, bytes: seq<Byte>, position: nat)
    ensures var m, e := |bytes|, AfterRead(reg, sock, if bytes == [] then Eof else Data(bytes), position);
            && e.reply == (if m == 0 then Code(-1, None) else Code(m, Some(bytes)))
            && e.reg == reg.(taken := reg.taken[sock := position],
                             state := if m == 0 then reg.state[sock := 0] else reg.state)
  {
  }

  /** A valid read on a stored socket that is not answered: -3 if it has a timeout and as many receives as fit in
      it timed out, -2 if an error came first, and otherwise it goes on; nothing changes. */
  lemma UnansweredReadReply(
    reg: Registry, peer: Sock -> seq<Byte>, sock: Sock, length: int, timeout: real, recvs: seq<Recv>)
    requires Taken(reg, sock) <= |peer(sock)| && sock in reg.conn
    requires length >= -1 && TimeoutOk(timeout) && !Answered(recvs, timeout)
    ensures var e, end := ReadEffect(reg, peer, sock, length, timeout, recvs), UnansweredEnd(recvs, timeout);
            && e.reply == (if end == Expired then Code(-3, None) else if end == Failed then Code(-2, None) else Busy)
            && e.reg == reg.(taken := reg.taken[sock := Taken(reg, sock)])
  {
    var want := if length == -1 then 4096 else length;
    UnansweredEnds(peer(sock), Taken(reg, sock), want, timeout, recvs);
    ValidRead(reg, peer, sock, length, timeout, recvs, want);
    AfterNothing(reg, sock, UnansweredEnd(recvs, timeout), Taken(reg, sock));
  }

  lemma AfterNothing(reg: Registry, sock: Sock, end: ReadEnd, position: nat)
    requires end == Expired || end == Failed || end == Waiting
    ensures var e := AfterRead(reg, sock, end, position);
            && e.reply == (if end == Expired then Code(-3, None) else if end == Failed then Code(-2, None) else Busy)
            && e.reg == reg.(taken := reg.taken[sock := position])
  {
  }

  /** A read is refused for a length below -1 or a timeout below 0 other than -1, and otherwise answers -1 for a
      socket that is not stored; neither touches anything. */
  lemma RefusedRead(
    reg: Registry, peer: Sock -> seq<Byte>, sock: Sock, length: int, timeout: real, recvs: seq<Recv>)
    ensures var e := ReadEffect(reg, peer, sock, length, timeout, recvs);
            && (e.reply == ValueError <==> length < -1 || !TimeoutOk(timeout))
            && (e.reply == ValueError || sock !in reg.conn ==> e.reg == reg)
            && (e.reply != ValueError && sock !in reg.conn ==> e.reply == Code(-1, None))
  {
  }

  /** A flush replies -1 for a socket that is not stored; else 0, -2 or -3 for the first poll that is not just
      readable data or nothing, and goes on without one. */
  lemma FlushReply(reg: Registry, peer: Sock -> seq<Byte>, sock: Sock, polls: seq<Poll>, i: nat)
    requires Taken(reg, sock) <= |peer(sock)| && i <= |polls| && forall j :: 0 <= j < i ==> !Decisive(polls[j])
    requires i == |polls| || Decisive(polls[i])
    ensures var reply := FlushEffect(reg, peer, sock, polls).reply;
            reply == if sock !in reg.conn then Code(-1, None)
                     else if i == |polls| then Busy
                     else if polls[i].Writable? then Code(0, None)
                     else if polls[i].PollError? then Code(-3, None) else Code(-2, None)
  {
    FlushStopsAtFirstDecisive(peer(sock), Taken(reg, sock), polls, i);
  }

  /** An open refuses a negative port, and the server its reserved one, with nothing changed. One that goes through
      with a usable port returns the socket that is now stored under its own id: a new one, open, in state 1, with
      its listener on the server side; what was stored before is as it was. */
  lemma {:induction false} OpenReply(kind: Kind, reg: Registry, port: int, attempts: seq<Attempt>)
    requires Consistent(kind, reg)
    ensures var e := OpenLoop(kind, reg, port, attempts);
            && (e.reply.Opened? <==> Connects in attempts && port <= 65535)
            && (e.reply == OverflowError <==> Connects in attempts && port > 65535)
            && (e.reply.Opened? ==>
                  && e.reply.sock >= reg.next && e.reply.sock in e.reg.conn && e.reply.sock in e.reg.open
                  && StateOf(e.reg, e.reply.sock) == 1
                  && (kind == Server <==> e.reg.conn[e.reply.sock].listener.Some?)
                  && e.reg.conn - {e.reply.sock} == reg.conn && e.reg.state - {e.reply.sock} == reg.state)
            && (!e.reply.Opened? ==> e.reg.conn == reg.conn && e.reg.state == reg.state)
    decreases |attempts|
  {
    if attempts != [] {
      assert attempts == [attempts[0]] + attempts[1..];
      if attempts[0] != Connects {
        LaterNext(kind, reg.conn, reg.next, reg.next + 1);
        OpenReply(kind, reg.(next := reg.next + 1), port, attempts[1..]);
      } else {
        NextNotStored(kind, reg);
      }
    }
  }

  lemma NextNotStored(kind: Kind, reg: Registry)
    requires Consistent(kind, reg)
    ensures forall s :: s >= reg.next ==> s !in reg.conn && s !in reg.state
  {
    forall s | s >= reg.next ensures s !in reg.conn {
      if s in reg.conn { assert EntryOk(kind, reg.conn[s], s, reg.next) && s in Handles(reg.conn[s]); }
    }
  }

  lemma RefusedOpen(kind: Kind, reg: Registry, peer: Sock -> seq<Byte>, port: int, attempts: seq<Attempt>)
    ensures var e := Do(kind, reg, peer, OpenCall(port, attempts));
            && (e.reply == ValueError <==> port < 0 || (kind == Server && port == 12345))
            && (e.reply == ValueError ==> e.reg == reg)
  {
    OpenNeverRefuses(kind, reg, port, attempts);
  }

  lemma {:induction false} OpenNeverRefuses(kind: Kind, reg: Registry, port: int, attempts: seq<Attempt>)
    ensures OpenLoop(kind, reg, port, attempts).reply != ValueError
    decreases |attempts|
  {
    if attempts != [] && attempts[0] != Connects {
      OpenNeverRefuses(kind, reg.(next := reg.next + 1), port, attempts[1..]);
    }
  }

  /** Closing a stored socket replies 0 and forgets that one only: it and its listener are no longer open, every other
      entry, state and open socket stays. A socket that is not stored gives -1 on the server side, KeyError on the
      client side, and leaves both tables as they are. */
  lemma CloseReply(kind: Kind, reg: Registry, peer: Sock -> seq<Byte>, sock: Sock)
    requires Consistent(kind, reg)
    ensures var e := Do(kind, reg, peer, CloseCall(sock));
            && (e.reply == Code(0, None) <==> sock in reg.conn)
            && sock !in e.reg.conn && sock !in e.reg.state && StateOf(e.reg, sock) == 0
            && (forall s :: s in reg.conn && s != sock ==>
                  && s in e.reg.conn && e.reg.conn[s] == reg.conn[s] && StateOf(e.reg, s) == StateOf(reg, s)
                  && Handles(reg.conn[s]) <= e.reg.open)
            && (sock in reg.conn ==> Handles(reg.conn[sock]) !! e.reg.open)
            && (sock !in reg.conn ==> e.reply == if kind == Server then Code(-1, None) else KeyError)
  {
    CloseConsistent(kind, reg, sock);
    var r := CloseEffect(kind, reg, sock).reg;
    forall s | s in reg.conn && s != sock ensures s in r.conn && Handles(reg.conn[s]) <= r.open {
      assert r.conn[s] == reg.conn[s];
      forall h | h in Handles(reg.conn[s]) ensures h in r.open {
        assert s in r.conn && h in Handles(r.conn[s]);
        assert IsStored(r.conn, h);
      }
    }
  }

  /** Asking for the state changes nothing and gives 1 for a stored socket in state 1, else 0. */
  lemma StateReply(kind: Kind, reg: Registry, peer: Sock -> seq<Byte>, sock: Sock)
    requires Consistent(kind, reg)
    ensures var e := Do(kind, reg, peer, StateCall(sock));
            e.reg == reg && e.reply == Code(if sock in reg.conn && reg.state[sock] == 1 then 1 else 0, None)
  {
  }

  /* ---- What -1 and state 0 mean ---- */

  /** A receive that is due hands over at least a byte while bytes are left. */
  predicate Prompt(recvs: seq<Recv>) {
    forall i :: 0 <= i < |recvs| && recvs[i].Arrives? ==> recvs[i].k >= 1
  }

  /** A valid read on a live connection gives -1 if and only if it turns the state to 0, and it does so if and
      only if it is answered in time and either the whole stream has been consumed or length 0 was asked for:
      -1 means end of stream for every length but 0. */
  lemma DisconnectedExactlyAtEndOrEmptyRequest(
    reg: Registry, peer: Sock -> seq<Byte>, sock: Sock, length: int, timeout: real, recvs: seq<Recv>)
    requires Taken(reg, sock) <= |peer(sock)| && StateOf(reg, sock) == 1
    requires length >= -1 && TimeoutOk(timeout) && Prompt(recvs)
    ensures var e := ReadEffect(reg, peer, sock, length, timeout, recvs);
            && (StateOf(e.reg, sock) == 0 <==>
                  Answered(recvs, timeout) && (length == 0 || Taken(reg, sock) == |peer(sock)|))
            && (StateOf(e.reg, sock) == 0 <==> e.reply == Code(-1, None))
            && (StateOf(e.reg, sock) == 0 ==> Taken(e.reg, sock) == Taken(reg, sock))
  {
    EofExactly(peer(sock), Taken(reg, sock), RequestSize(length), timeout, recvs, 0);
    ReadReturnsWhatItTakes(peer(sock), Taken(reg, sock), RequestSize(length), timeout, recvs, 0);
  }

  /** From the start of the module: a read of any other length that is answered on a live connection reports
      its end if and only if the calls so far have delivered (or flushed) the peer's whole stream. */
  lemma EndReportedExactlyWhenAllDelivered(
    kind: Kind, peer: Sock -> seq<Byte>, calls: seq<Call>, sock: Sock, length: int, timeout: real, recvs: seq<Recv>)
    requires length >= -1 && length != 0 && TimeoutOk(timeout) && Prompt(recvs) && Answered(recvs, timeout)
    requires StateOf(RunCalls(kind, EMPTY, peer, calls), sock) == 1
    ensures var reg := RunCalls(kind, EMPTY, peer, calls);
            ReadEffect(reg, peer, sock, length, timeout, recvs).reply == Code(-1, None) <==>
            AllDelivered(kind, EMPTY, peer, calls, sock) == peer(sock)
  {
    var reg := RunCalls(kind, EMPTY, peer, calls);
    var all := AllDelivered(kind, EMPTY, peer, calls, sock);
    StreamConservation(kind, EMPTY, peer, calls, sock);
    assert all == peer(sock)[..Taken(reg, sock)] by {
      assert peer(sock)[..0] + all == all;
    }
    DisconnectedExactlyAtEndOrEmptyRequest(reg, peer, sock, length, timeout, recvs);
  }

  lemma EmptyRequestEnds(reg: Registry, peer: Sock -> seq<Byte>, sock: Sock, timeout: real, recvs: seq<Recv>)
    requires Taken(reg, sock) <= |peer(sock)| && StateOf(reg, sock) == 1 && TimeoutOk(timeout)
    ensures var e := ReadEffect(reg, peer, sock, 0, timeout, recvs);
            && Taken(e.reg, sock) == Taken(reg, sock)
            && (Answered(recvs, timeout) <==> StateOf(e.reg, sock) == 0)
            && (Answered(recvs, timeout) ==> e.reply == Code(-1, None))
  {
    EofExactly(peer(sock), Taken(reg, sock), 0, timeout, recvs, 0);
    ReadReturnsWhatItTakes(peer(sock), Taken(reg, sock), 0, timeout, recvs, 0);
  }

  /** A read of length 0 takes nothing from the stream; yet if it is answered in time, and only then, it marks
      the live connection as disconnected, for good: an empty receive is taken for end of stream. */
  lemma ZeroLengthReadDisconnects(
    kind: Kind, reg: Registry, peer: Sock -> seq<Byte>, sock: Sock, timeout: real, recvs: seq<Recv>,
    later: seq<Call>)
    requires Consistent(kind, reg) && Taken(reg, sock) <= |peer(sock)|
    requires StateOf(reg, sock) == 1 && TimeoutOk(timeout)
    ensures var e := Do(kind, reg, peer, ReadCall(sock, 0, timeout, recvs));
            && Taken(e.reg, sock) == Taken(reg, sock)
            && (Answered(recvs, timeout) <==> StateOf(e.reg, sock) == 0)
            && (Answered(recvs, timeout) ==>
                  e.reply == Code(-1, None) && StateOf(RunCalls(kind, e.reg, peer, later), sock) == 0)
  {
    var call := ReadCall(sock, 0, timeout, recvs);
    var e := Do(kind, reg, peer, call);
    EmptyRequestEnds(reg, peer, sock, timeout, recvs);
    if Answered(recvs, timeout) {
      CallConsistent(kind, reg, peer, call);
      assert EntryOk(kind, reg.conn[sock], sock, reg.next) && sock in Handles(reg.conn[sock]);
      DisconnectedForGood(kind, e.reg, peer, later, sock);
    }
  }

  /* ---- The modules themselves ---- */

  class TcpModule {
    const kind: Kind
    const peer: Sock -> seq<Byte>
    var conn: map<Sock, Entry>
    var state: map<Sock, int>
    var endData: map<Sock, string>
    var next: Sock
    var open: set<Sock>
    var lost: set<Sock>
    var taken: map<Sock, nat>

    ghost function Tables(): Registry
      reads this
    {
      Registry(conn, state, next, open, lost, taken)
    }

    ghost predicate Valid()
      reads this
    {
      Consistent(kind, Tables()) && PositionsOk(Tables(), peer)
    }

    constructor (kind: Kind, peer: Sock -> seq<Byte>)
      ensures Valid() && this.kind == kind && this.peer == peer && Tables() == EMPTY
    {
      this.kind, this.peer := kind, peer;
      conn, state, endData := map[], map[], map[];
      next, open, lost, taken := 0, {}, {}, map[];
      new;
      EmptyConsistent(kind);
    }

    method CreateSocket() returns (sock: Sock)
      modifies this
      ensures sock == old(next)
      ensures Tables() == old(Tables()).(next := old(next) + 1, open := old(open) + {sock})
    {
      sock := next;
      next := next + 1;
      open := open + {sock};
    }

    /** server_socket_open / client_socket_open: the checks of the port. */
    method Open(port: int, attempts: seq<Attempt>) returns (reply: Reply)
      requires Valid()
      modifies this
      ensures Valid()
      ensures Effect(Tables(), reply) == Do(kind, old(Tables()), peer, OpenCall(port, attempts))
    {
      CallConsistent(kind, Tables(), peer, OpenCall(port, attempts));
      OpenKeepsStreams(kind, Tables(), port, attempts);
      OpenIsOld(kind, Tables());
      if port < 0 || (kind == Server && port == TP_SERVER_PORT) {
        return ValueError;
      }
      reply := OpenRounds(port, attempts);
    }

    /** Retry until an attempt connects. */
    method OpenRounds(port: int, attempts: seq<Attempt>) returns (reply: Reply)
      requires forall s :: s in open ==> s < next
      modifies this
      ensures Effect(Tables(), reply) == OpenLoop(kind, old(Tables()), port, attempts)
    {
      ghost var start := Tables();
      var i := 0;
      while i < |attempts|
        invariant i <= |attempts|
        invariant Tables() == start.(next := next) && start.next <= next
        invariant OpenLoop(kind, start, port, attempts) == OpenLoop(kind, Tables(), port, attempts[i..])
      {
        assert attempts[i..][1..] == attempts[i + 1..];
        if attempts[i] == Connects {
          if port > MAX_PORT {
            reply := Overflow();
          } else {
            reply := Connect();
          }
          return;
        }
        FailedAttempt();
        i := i + 1;
      }
      reply := Busy;
    }

    /** One attempt whose bind or connect raises OverflowError: no handler closes the socket made for it. */
    method Overflow() returns (reply: Reply)
      modifies this
      ensures Effect(Tables(), reply) == Overflowed(old(Tables()))
    {
      var sock := CreateSocket();
      lost := lost + {sock};
      reply := OverflowError;
    }

    /** One attempt that ends in socket.error: the socket made for it is closed again. */
    method FailedAttempt()
      requires next !in open
      modifies this
      ensures Tables() == old(Tables()).(next := old(next) + 1)
    {
      var sock := CreateSocket();
      open := open - {sock};
      assert open == old(open);
    }

    /** One attempt that connects: lines 67-94 of the server file, 74-89 of the client file. */
    method Connect() returns (reply: Reply)
      modifies this
      ensures Effect(Tables(), reply) == Connected(kind, old(Tables()))
      ensures taken == old(taken)
    {
      var first := CreateSocket();
      var sock, listener := first, None;
      if kind == Server {
        sock := CreateSocket();
        listener := Some(first);
      }
      conn := conn[sock := Entry(sock, listener)];
      state := state[sock := 1];
      assert open == Connected(kind, old(Tables())).reg.open;
      reply := Opened(sock);
    }

    /** Both sockets of an entry are closed, then both tables forget it. */
    method CloseStored(sock: Sock)
      requires sock in conn && sock in state && conn[sock].sock == sock
      modifies this
      ensures Tables() == CloseEffect(kind, old(Tables()), sock).reg
      ensures endData == old(endData)
    {
      var entry := conn[sock];
      open := open - {entry.sock};
      if entry.listener.Some? {
        open := open - {entry.listener.value};
      }
      assert open == old(open) - Handles(entry);
      state := state - {sock};
      conn := conn - {sock};
    }

    /** server_socket_close / client_socket_close. */
    method Close(sock: Sock) returns (reply: Reply)
      requires Valid()
      modifies this
      ensures Valid()
      ensures Effect(Tables(), reply) == Do(kind, old(Tables()), peer, CloseCall(sock))
      ensures endData == old(endData)
    {
      CallConsistent(kind, Tables(), peer, CloseCall(sock));
      if kind == Server && sock !in conn {
        return Code(-1, None);
      }
      if sock !in state {
        open := open - {sock};
        lost := lost - {sock};
        return KeyError;
      }
      assert EntryOk(kind, conn[sock], sock, next);
      CloseStored(sock);
      reply := Code(0, None);
    }

    /** clean_server_socket / clean_client_socket: close the keys one by one. */
    method Clean()
      requires Valid()
      modifies this
      ensures Valid()
      ensures Tables() == Do(kind, old(Tables()), peer, CleanCall).reg && open == lost
      ensures endData == map[]
    {
      ghost var start := Tables();
      CallConsistent(kind, start, peer, CleanCall);
      var keys := conn.Keys;
      while keys != {}
        invariant Valid() && keys == conn.Keys
        invariant next == start.next && taken == start.taken && lost == start.lost
        decreases |keys|
      {
        var sock :| sock in keys;
        var reply := Close(sock);
        keys := keys - {sock};
      }
      assert conn == map[] && state == map[];
      NoEntryOpenIsLost(kind, Tables());
      endData := map[];
    }

    /** server_socket_state / client_socket_state. */
    method SocketState(sock: Sock) returns (s: int)
      requires Valid()
      ensures s == StateOf(Tables(), sock) && (s == 0 || s == 1)
      ensures s == 1 ==> sock in conn && sock in open
    {
      s := if sock in conn then state[sock] else 0;
    }

    /** server_socket_read / client_socket_read. */
    method Read(sock: Sock, length: int, timeout: real, recvs: seq<Recv>) returns (reply: Reply)
      requires Valid()
      modifies this
      ensures Valid()
      ensures Effect(Tables(), reply) == Do(kind, old(Tables()), peer, ReadCall(sock, length, timeout, recvs))
    {
      ghost var call := ReadCall(sock, length, timeout, recvs);
      CallConsistent(kind, Tables(), peer, call);
      CallKeepsPositions(kind, Tables(), peer, call);
      if (length != -1 && length < 0) || (timeout != -1.0 && timeout < 0.0) {
        return ValueError;
      }
      if sock !in conn {
        return Code(-1, None);
      }
      var position := if sock in taken then taken[sock] else 0;
      assert position == Taken(Tables(), sock) <= |peer(sock)|;
      var size := if length == -1 then BUFF_SIZE else length;
      var end, used, reached := ReceiveLoop(peer(sock), position, size, timeout, recvs);
      reply := FinishRead(sock, end, reached);
    }

    /** Lines 326-343 of the server file: the reply, and state 0 at end of stream. */
    method FinishRead(sock: Sock, end: ReadEnd, reached: nat) returns (reply: Reply)
      modifies this
      ensures Effect(Tables(), reply) == AfterRead(old(Tables()), sock, end, reached)
    {
      taken := taken[sock := reached];
      match end
      case Data(bytes) => reply := Code(|bytes|, Some(bytes));
      case Eof =>
        state := state[sock := 0];
        reply := Code(-1, None);
      case Failed => reply := Code(-2, None);
      case Expired => reply := Code(-3, None);
      case Waiting => reply := Busy;
    }

    /** server_socket_flush / client_socket_flush. */
    method Flush(sock: Sock, polls: seq<Poll>) returns (reply: Reply, dropped: seq<Byte>)
      requires Valid()
      modifies this
      ensures Valid()
      ensures Effect(Tables(), reply) == Do(kind, old(Tables()), peer, FlushCall(sock, polls))
      ensures dropped == Dropped(old(Tables()), peer, sock, polls)
    {
      ghost var call := FlushCall(sock, polls);
      CallConsistent(kind, Tables(), peer, call);
      CallKeepsPositions(kind, Tables(), peer, call);
      if sock !in conn {
        return Code(-1, None), [];
      }
      var position := if sock in taken then taken[sock] else 0;
      assert position == Taken(Tables(), sock) <= |peer(sock)|;
      var code, dummies, reached := DrainLoop(peer(sock), position, polls);
      taken := taken[sock := reached];
      dropped := dummies;
      reply := if code.Some? then Code(code.value, None) else Busy;
    }
  }
}

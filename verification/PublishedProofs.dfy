/** What every published step keeps, and what a graceful close guarantees. */
module PublishedProofs {
  import opened Common
  import opened Targets
  import opened Sockets
  import opened Ports
  import opened Published

  // ---------------------------------------------------------------- one connection

  /** Bytes read from the host are accepted by the namespace socket or buffered,
      in order; bytes taken from the namespace are written to the host. */
  ghost predicate Flow(c: ConnectionContext, s: Socket) {
    && c.host.read == s.accepted + c.hostToNamespace
    && c.host.written == s.taken
    && |c.hostToNamespace| <= TCP_BUF_SIZE
  }

  ghost predicate Consistent(c: Conn, s: Socket, polls: nat) {
    && s.Valid()
    && match c
       case Connecting(host, _) => s.Untouched() && host.read == [] && host.written == []
       case Established(context) => Flow(context, s)
       case Closing(since) => s.Dead() && since <= polls
  }

  lemma FillKeepsFlow(l: Link, answer: HostAnswer)
    requires Flow(l.context, l.socket)
    ensures var m := Fill(l, answer);
      Flow(m.context, m.socket) && m.socket == l.socket && l.context.host.read <= m.context.host.read
  {
    var c := l.context;
    if !c.closeAfterDrain && |c.hostToNamespace| < TCP_BUF_SIZE && answer.HostData? {
      var got := answer.bytes[..Min(|answer.bytes|, TCP_BUF_SIZE - |c.hostToNamespace|)];
      assert c.host.read + got == l.socket.accepted + (c.hostToNamespace + got);
    }
  }

  lemma PushKeepsFlow(l: Link, answer: SendAnswer)
    requires Flow(l.context, l.socket) && l.socket.Valid()
    ensures var m := Push(l, answer);
      && Flow(m.context, m.socket) && m.socket.Valid()
      && m.socket.Received() == l.socket.Received() && m.socket.acked == l.socket.acked
      && m.context.host == l.context.host
  {
    var buffer, s := l.context.hostToNamespace, l.socket;
    if buffer != [] && s.CanSend() && answer.Accept? {
      var k := Min(answer.n, Min(TCP_BUF_SIZE - |s.tx|, |buffer|));
      assert buffer == buffer[..k] + buffer[k..];
      Assoc(s.accepted, buffer[..k], buffer[k..]);
      Assoc(s.acked, s.tx, buffer[..k]);
    }
  }

  lemma DownlinkKeepsFlow(l: Link, answer: WriteAnswer)
    requires Flow(l.context, l.socket) && l.socket.Valid()
    ensures var m := Downlink(l, answer);
      && Flow(m.context, m.socket) && m.socket.Valid()
      && m.socket.Received() == l.socket.Received() && m.socket.acked == l.socket.acked
      && m.context.host.read == l.context.host.read
  {
    if l.socket.CanRecv() && answer.Wrote? {
      var k := Min(answer.n, |l.socket.rx|);
      assert l.socket.rx == l.socket.rx[..k] + l.socket.rx[k..];
    }
  }

  /** The conservation law of one forwarding pass, for every I/O answer. */
  lemma PumpKeepsFlow(l: Link, io: Io)
    requires Flow(l.context, l.socket) && l.socket.Valid()
    ensures var m := Pump(l, io);
      && Flow(m.context, m.socket) && m.socket.Valid()
      && m.socket.Received() == l.socket.Received() && m.socket.acked == l.socket.acked
      && m.socket.state == l.socket.state
      && l.context.host.read <= m.context.host.read
  {
    FillKeepsFlow(l, io.read);
    var l1 := Fill(l, io.read);
    PushKeepsFlow(l1, io.send);
    var l2 := Push(l1, io.send);
    DownlinkKeepsFlow(l2, io.write);
  }

  /** A close that is neither a failure nor the namespace's own close happens only
      when all bytes read from the host are acknowledged by the namespace and all
      bytes received from the namespace are written to the host. */
  lemma GracefulCloseIsComplete(c: ConnectionContext, s: Socket, io: Io, polls: nat)
    requires Flow(c, s) && s.Valid() && !s.Dead()
    requires var l := Pump(Link(c, s, false), io);
      !l.failed && ShuttleStep(Conn.Established(c), s, io, polls).0.Closing?
    ensures var l := Pump(Link(c, s, false), io);
      l.context.host.read == l.socket.acked && l.context.host.written == l.socket.Received()
  {
    PumpKeepsFlow(Link(c, s, false), io);
  }

  predicate Faultless(io: Io) {
    !io.read.HostFault? && !io.send.Refuse? && !io.write.WriteFault?
  }

  /** With both directions open and no I/O fault, a pass closes exactly when the
      host has ended, nothing is on the way to the namespace, and this pass
      writes out everything received from it. */
  lemma OpenConnectionClosesOnlyDrained(c: ConnectionContext, s: Socket, io: Io, polls: nat)
    requires Flow(c, s) && s.Valid() && s.state.Established? && Faultless(io)
    ensures ShuttleStep(Conn.Established(c), s, io, polls).0.Closing? <==>
      && (c.closeAfterDrain || io.read == HostData([]))
      && c.hostToNamespace == [] && s.tx == []
      && (s.rx == [] || (io.write.Wrote? && io.write.n >= |s.rx|))
  {
    var l := Link(c, s, false);
    var l1 := Fill(l, io.read);
    FillSees(l, io.read);
    PushEmptiesNothing(l1, io.send);
    var l2 := Push(l1, io.send);
    assert l2.socket.rx == s.rx && l2.socket.state == s.state;
    var l3 := Downlink(l2, io.write);
    assert l3.socket.tx == l2.socket.tx && !l3.failed;
    assert l3.socket.rx == [] <==> s.rx == [] || (io.write.Wrote? && io.write.n >= |s.rx|);
  }

  /** An I/O call that is made and fails. */
  predicate Fails(c: ConnectionContext, s: Socket, io: Io) {
    || (!c.closeAfterDrain && |c.hostToNamespace| < 65536 && io.read.HostFault?)
    || (c.hostToNamespace != [] && |s.tx| < 65536 && io.send.Refuse?)
    || (s.rx != [] && io.write.WriteFault?)
  }

  /** Such a failure closes the connection, and so does a socket that is closed. */
  lemma FailureCloses(c: ConnectionContext, s: Socket, io: Io, polls: nat)
    requires s.Dead() || (s.Connected() && Fails(c, s, io))
    ensures var (after, t) := ShuttleStep(Conn.Established(c), s, io, polls); after.Closing? && t.Dead()
  {
    var l := Link(c, s, false);
    var l1 := Fill(l, io.read);
    var l2 := Push(l1, io.send);
    var l3 := Downlink(l2, io.write);
    assert (l1.failed ==> l2.failed) && (l2.failed ==> l3.failed);
    assert l1.socket == s && l2.socket.state == s.state && l2.socket.rx == s.rx && l3.socket.state == s.state;
    assert c.hostToNamespace != [] ==> l1.context.hostToNamespace != [];
  }

  /** What a pass reads from the host, sends to the namespace, and takes from it. */
  function ReadBy(c: ConnectionContext, answer: HostAnswer): seq<byte> {
    if c.closeAfterDrain || |c.hostToNamespace| >= 65536 || !answer.HostData? then []
    else answer.bytes[..Min(|answer.bytes|, 65536 - |c.hostToNamespace|)]
  }

  function SentBy(s: Socket, buffer: seq<byte>, answer: SendAnswer): nat {
    if answer.Accept? && |s.tx| <= 65536 then Min(answer.n, Min(65536 - |s.tx|, |buffer|)) else 0
  }

  function TakenBy(s: Socket, answer: WriteAnswer): nat {
    if answer.Wrote? then Min(answer.n, |s.rx|) else 0
  }

  /** What a pass moves, on the histories. */
  ghost predicate PassMoved(c: ConnectionContext, s: Socket, io: Io, m: Link) {
    var got, k := ReadBy(c, io.read), TakenBy(s, io.write);
    var buffer := c.hostToNamespace + got;
    var n := SentBy(s, buffer, io.send);
    && m.context.host.read == c.host.read + got
    && m.socket.accepted == s.accepted + buffer[..n] && m.socket.tx == s.tx + buffer[..n]
    && m.context.hostToNamespace == buffer[n..]
    && m.socket.taken == s.taken + s.rx[..k] && m.socket.rx == s.rx[k..]
    && m.context.host.written == c.host.written + s.rx[..k]
    && m.socket.state == s.state && !m.failed
  }

  lemma FillReads(l: Link, answer: HostAnswer)
    requires !answer.HostFault?
    ensures var m, got := Fill(l, answer), ReadBy(l.context, answer);
      && m.socket == l.socket && m.failed == l.failed
      && m.context.host == l.context.host.(read := l.context.host.read + got)
      && m.context.hostToNamespace == l.context.hostToNamespace + got
  {
    if ReadBy(l.context, answer) == [] {
      assert l.context.host.read + [] == l.context.host.read;
      assert l.context.hostToNamespace + [] == l.context.hostToNamespace;
    }
  }

  lemma PushMoves(l: Link, answer: SendAnswer)
    requires l.socket.Valid() && l.socket.Connected() && !answer.Refuse?
    ensures var m, buffer := Push(l, answer), l.context.hostToNamespace;
      var n := SentBy(l.socket, buffer, answer);
      && m == l.(socket := m.socket, context := l.context.(hostToNamespace := buffer[n..]))
      && m.socket == l.socket.(tx := l.socket.tx + buffer[..n], accepted := l.socket.accepted + buffer[..n])
  {
    var buffer := l.context.hostToNamespace;
    if SentBy(l.socket, buffer, answer) == 0 {
      assert buffer[..0] == [] && buffer[0..] == buffer;
      assert l.socket.tx + [] == l.socket.tx && l.socket.accepted + [] == l.socket.accepted;
    }
  }

  lemma DownlinkMoves(l: Link, answer: WriteAnswer)
    requires l.socket.Connected() && !answer.WriteFault?
    ensures var m, k := Downlink(l, answer), TakenBy(l.socket, answer);
      && m.socket == l.socket.(rx := l.socket.rx[k..], taken := l.socket.taken + l.socket.rx[..k])
      && m.context == l.context.(host := l.context.host.(written := l.context.host.written + l.socket.rx[..k]))
      && m.failed == l.failed
  {
    var k := TakenBy(l.socket, answer);
    if k == 0 {
      assert l.socket.rx[..0] == [] && l.socket.rx[0..] == l.socket.rx;
      assert l.socket.taken + [] == l.socket.taken && l.context.host.written + [] == l.context.host.written;
    }
  }

  /** What a faultless pass over a connected socket moves, exactly: what the host
      offers and the buffer holds, what the namespace socket accepts of the buffer,
      and what the host takes of the receive queue. */
  lemma PassMoves(c: ConnectionContext, s: Socket, io: Io)
    requires s.Valid() && s.Connected() && Faultless(io)
    ensures PassMoved(c, s, io, Pump(Link(c, s, false), io))
  {
    var l2 := Push(Fill(Link(c, s, false), io.read), io.send);
    FillThenPush(c, s, io);
    DownlinkMoves(l2, io.write);
    var l3 := Downlink(l2, io.write);
    NoteKeepsBytes(l3);
  }

  lemma FillThenPush(c: ConnectionContext, s: Socket, io: Io)
    requires s.Valid() && s.Connected() && Faultless(io)
    ensures var l2, buffer := Push(Fill(Link(c, s, false), io.read), io.send), c.hostToNamespace + ReadBy(c, io.read);
      var n := SentBy(s, buffer, io.send);
      && l2.socket == s.(tx := s.tx + buffer[..n], accepted := s.accepted + buffer[..n])
      && l2.context.host == c.host.(read := c.host.read + ReadBy(c, io.read))
      && l2.context.hostToNamespace == buffer[n..] && !l2.failed
  {
    FillReads(Link(c, s, false), io.read);
    PushMoves(Fill(Link(c, s, false), io.read), io.send);
  }

  lemma NoteKeepsBytes(l: Link)
    ensures var m := NoteHalfClose(l);
      && m.socket == l.socket && m.failed == l.failed
      && m.context.host == l.context.host && m.context.hostToNamespace == l.context.hostToNamespace
  {
  }

  lemma FillSees(l: Link, answer: HostAnswer)
    requires !answer.HostFault? && |l.context.hostToNamespace| <= TCP_BUF_SIZE
    ensures var m := Fill(l, answer);
      && m.socket == l.socket && m.failed == l.failed
      && (m.context.closeAfterDrain && m.context.hostToNamespace == [] <==>
            (l.context.closeAfterDrain || answer == HostData([])) && l.context.hostToNamespace == [])
  {
  }

  lemma PushEmptiesNothing(l: Link, answer: SendAnswer)
    requires !answer.Refuse?
    ensures var m := Push(l, answer);
      && m.failed == l.failed && m.context.closeAfterDrain == l.context.closeAfterDrain
      && (m.context.hostToNamespace == [] && m.socket.tx == [] <==>
            l.context.hostToNamespace == [] && l.socket.tx == [])
  {
  }

  /** Allowed progress of one connection in one step; entering Closing is stamped
      with the number of polls completed. */
  predicate Advances(c: Conn, d: Conn, polls: nat) {
    if c.Closing? then d == c else Rank(c) <= Rank(d) && (d.Closing? ==> d.since == polls)
  }

  lemma ConnectStepKeeps(c: Conn, s: Socket, now: nat, polls: nat)
    requires Consistent(c, s, polls)
    ensures var (d, t) := ConnectStep(c, s, now, polls); Consistent(d, t, polls) && Advances(c, d, polls)
  {
  }

  lemma ShuttleStepKeeps(c: Conn, s: Socket, io: Io, polls: nat)
    requires Consistent(c, s, polls)
    ensures var (d, t) := ShuttleStep(c, s, io, polls); Consistent(d, t, polls) && Advances(c, d, polls)
  {
    if c.Established? {
      PumpKeepsFlow(Link(c.context, s, false), io);
    }
  }

  // ---------------------------------------------------------------- the whole table

  ghost predicate IndexInv(t: Table) {
    && t.states.Keys == t.port.Keys == t.owner.Keys
    && Injective(t.port) && t.used == t.port.Values
    && (forall p | p in t.used :: InRange(p))
    && InRange(t.next)
  }

  function Ids(s: seq<Accepted>): set<nat> {
    set a | a in s :: a.id
  }

  ghost predicate DistinctIds(s: seq<Accepted>) {
    forall i, j | 0 <= i < j < |s| :: s[i].id != s[j].id
  }

  function Waiting(t: Table): seq<Accepted> {
    t.pending + t.channel
  }

  /** Every arrival is in exactly one place: waiting, carried by exactly one
      handle, dropped, or finished. */
  ghost predicate Conserved(t: Table) {
    && DistinctIds(Waiting(t)) && Injective(t.owner)
    && Ids(Waiting(t)) !! t.owner.Values !! t.dropped !! t.finished
    && (forall i: nat :: i < t.arrived <==>
          i in Ids(Waiting(t)) || i in t.owner.Values || i in t.dropped || i in t.finished)
  }

  ghost predicate TableInv(t: Table, socks: Socks, polls: nat) {
    && IndexInv(t)
    && Conserved(t)
    && t.states.Keys <= socks.Keys
    && forall h | h in t.states :: Consistent(t.states[h], socks[h], polls)
  }

  /** Nothing but the states of existing connections changed, and only forward. */
  ghost predicate OnlyAdvances(t: Table, u: Table, polls: nat) {
    && u == t.(states := u.states) && u.states.Keys == t.states.Keys
    && forall h | h in t.states :: Advances(t.states[h], u.states[h], polls)
  }

  /** At any moment at most 16384 published connections hold a port. */
  lemma LivePortsBounded(t: Table)
    requires IndexInv(t)
    ensures |t.used| <= CAPACITY == 16384
  {
    RangeBounds(t.used, CAPACITY);
  }

  lemma ArriveKeeps(t: Table, namespacePort: u16)
    requires Conserved(t)
    ensures Conserved(Arrive(t, namespacePort))
    ensures Waiting(Arrive(t, namespacePort)) == Waiting(t) + [Accepted(t.arrived, namespacePort)]
  {
    var a := Accepted(t.arrived, namespacePort);
    var u := Arrive(t, namespacePort);
    assert Waiting(u) == Waiting(t) + [a];
    assert Ids(Waiting(u)) == Ids(Waiting(t)) + {a.id} by {
      assert a in Waiting(u);
      assert forall b | b in Waiting(t) :: b in Waiting(u);
    }
    assert forall b | b in Waiting(t) :: b.id in Ids(Waiting(t));
  }

  /** Waiting connections keep their order; a wake-up takes one from the channel, and
      a pass takes all. */
  lemma ReceiveKeeps(t: Table)
    ensures Waiting(Receive(t)) == Waiting(t) && Waiting(DrainChannel(t)) == Waiting(t)
    ensures |Receive(t).channel| == Max(|t.channel| - 1, 0) && DrainChannel(t).channel == []
  {
  }

  lemma AttachFirstKeepsIndex(t: Table, socks: Socks, now: nat, accepts: Accepted -> bool)
    requires IndexInv(t) && t.states.Keys <= socks.Keys && t.pending != []
    ensures IndexInv(AttachFirst(t, socks, now, accepts).0)
  {
    FirstFreePortMeaning(t.used, t.next);
    var port := FirstFreePort(t.used, t.next);
    if port.Some? && accepts(t.pending[0]) {
      InjectiveExtension(t.port, FreshHandle(socks), port.value);
    }
  }

  lemma AttachFirstConserves(t: Table, socks: Socks, now: nat, accepts: Accepted -> bool)
    requires IndexInv(t) && Conserved(t) && t.states.Keys <= socks.Keys && t.pending != []
    ensures Conserved(AttachFirst(t, socks, now, accepts).0)
  {
    TakeFirst(t);
    var (u, _) := AttachFirst(t, socks, now, accepts);
    var id := t.pending[0].id;
    assert Waiting(u) == t.pending[1..] + t.channel;
    if u.dropped == t.dropped {
      InjectiveExtension(t.owner, FreshHandle(socks), id);
    }
  }

  lemma AttachFirstKeeps(t: Table, socks: Socks, now: nat, accepts: Accepted -> bool, polls: nat)
    requires TableInv(t, socks, polls) && t.pending != []
    ensures var (u, socks') := AttachFirst(t, socks, now, accepts);
      && TableInv(u, socks', polls)
      && Grows(t.states, socks, u.states, socks')
      && (forall h | h in u.states && h !in t.states :: u.states[h].Connecting?)
  {
    AttachFirstKeepsIndex(t, socks, now, accepts);
    AttachFirstConserves(t, socks, now, accepts);
    AttachFirstGrows(t, socks, now, accepts);
    var (u, socks') := AttachFirst(t, socks, now, accepts);
    forall h | h in u.states
      ensures h in socks' && Consistent(u.states[h], socks'[h], polls)
    {
    }
  }

  lemma AttachFirstGrows(t: Table, socks: Socks, now: nat, accepts: Accepted -> bool)
    requires InRange(t.next) && t.states.Keys <= socks.Keys && t.pending != []
    ensures var (u, socks') := AttachFirst(t, socks, now, accepts);
      && Grows(t.states, socks, u.states, socks')
      && (forall h | h in u.states && h !in t.states ::
            && u.states[h].Connecting? && u.states[h].host.read == [] && u.states[h].host.written == []
            && socks'[h].Valid() && socks'[h].Untouched())
  {
  }

  /** Removing the first waiting connection removes exactly its id. */
  lemma TakeFirst(t: Table)
    requires t.pending != [] && DistinctIds(Waiting(t))
    ensures var rest := t.pending[1..] + t.channel;
      && DistinctIds(rest)
      && Ids(Waiting(t)) == Ids(rest) + {t.pending[0].id}
      && t.pending[0].id !in Ids(rest)
  {
    var all, rest := Waiting(t), t.pending[1..] + t.channel;
    assert all == [all[0]] + rest;
    assert forall i | 0 <= i < |rest| :: rest[i] == all[i + 1];
    assert all[0] in all && forall a | a in rest :: a in all;
  }

  lemma {:induction false} AttachPendingKeeps(t: Table, socks: Socks, now: nat, accepts: Accepted -> bool, polls: nat)
    requires TableInv(t, socks, polls)
    ensures var (u, socks') := AttachPending(t, socks, now, accepts);
      && TableInv(u, socks', polls) && u.pending == [] && u.channel == t.channel
      && Grows(t.states, socks, u.states, socks')
      && (forall h | h in u.states && h !in t.states :: u.states[h].Connecting?)
    decreases |t.pending|
  {
    if t.pending != [] {
      AttachFirstKeeps(t, socks, now, accepts, polls);
      var (t1, socks1) := AttachFirst(t, socks, now, accepts);
      AttachPendingKeeps(t1, socks1, now, accepts, polls);
      var (u, socks') := AttachPending(t1, socks1, now, accepts);
      GrowsTwice(t.states, socks, t1.states, socks1, u.states, socks');
    }
  }

  lemma AttachAcceptedKeeps(t: Table, socks: Socks, now: nat, accepts: Accepted -> bool, polls: nat)
    requires TableInv(t, socks, polls)
    ensures var (u, socks') := AttachAccepted(t, socks, now, accepts);
      && TableInv(u, socks', polls) && u.pending == [] && u.channel == []
      && Grows(t.states, socks, u.states, socks')
      && (forall h | h in u.states && h !in t.states :: u.states[h].Connecting?)
  {
    ReceiveKeeps(t);
    AttachPendingKeeps(DrainChannel(t), socks, now, accepts, polls);
  }

  lemma PollConnectingKeeps(t: Table, socks: Socks, now: nat, polls: nat)
    requires TableInv(t, socks, polls)
    ensures var (u, socks') := PollConnecting(t, socks, now, polls);
      TableInv(u, socks', polls) && OnlyAdvances(t, u, polls)
  {
    forall h | h in t.states
      ensures var (d, s) := ConnectStep(t.states[h], socks[h], now, polls);
        Consistent(d, s, polls) && Advances(t.states[h], d, polls)
    {
      ConnectStepKeeps(t.states[h], socks[h], now, polls);
    }
  }

  lemma ShuttleKeeps(t: Table, socks: Socks, ios: Handle -> Io, polls: nat)
    requires TableInv(t, socks, polls)
    ensures var (u, socks') := Shuttle(t, socks, ios, polls);
      TableInv(u, socks', polls) && OnlyAdvances(t, u, polls)
  {
    forall h | h in t.states
      ensures var (d, s) := ShuttleStep(t.states[h], socks[h], ios(h), polls);
        Consistent(d, s, polls) && Advances(t.states[h], d, polls)
    {
      ShuttleStepKeeps(t.states[h], socks[h], ios(h), polls);
    }
  }

  lemma CleanupKeepsIndex(t: Table, socks: Socks)
    requires IndexInv(t)
    ensures var (u, _) := Cleanup(t, socks); IndexInv(u) && u.used == set h | h in u.states :: u.port[h]
  {
    var gone := ClosingHandles(t);
    InjectiveRemoval(t.port, gone);
    assert ValuesAt(t.port, gone) == set h | h in gone :: t.port[h];
    var (u, _) := Cleanup(t, socks);
    assert u.port.Values == set h | h in u.states :: u.port[h];
  }

  lemma CleanupConserves(t: Table, socks: Socks)
    requires IndexInv(t) && Conserved(t)
    ensures Conserved(Cleanup(t, socks).0)
  {
    var gone := ClosingHandles(t);
    InjectiveRemoval(t.owner, gone);
    var lost := ValuesAt(t.owner, gone);
    assert lost == set h | h in gone :: t.owner[h];
    assert lost <= t.owner.Values;
    var (u, _) := Cleanup(t, socks);
    assert Waiting(u) == Waiting(t);
    assert u.owner.Values + lost == t.owner.Values && u.owner.Values !! lost;
  }

  /** Cleanup removes exactly the closing connections and releases exactly their
      ports. */
  lemma CleanupKeeps(t: Table, socks: Socks, polls: nat)
    requires TableInv(t, socks, polls)
    ensures var (u, socks') := Cleanup(t, socks);
      && TableInv(u, socks', polls)
      && u.states.Keys == t.states.Keys - ClosingHandles(t)
      && ClosingHandles(u) == {}
      && (forall h | h in u.states :: u.states[h] == t.states[h] && u.port[h] == t.port[h])
      && u.used == set h | h in u.states :: u.port[h]
  {
    CleanupKeepsIndex(t, socks);
    CleanupConserves(t, socks);
  }

  lemma PollTableKeeps(t: Table, socks: Socks, net: Net, polls: nat)
    requires TableInv(t, socks, polls) && NetContract(net)
    ensures TableInv(t, PollAll(socks, net), polls + 1)
  {
    forall h | h in t.states
      ensures Consistent(t.states[h], net(h, socks[h]), polls + 1)
    {
      PollKeepsValid(socks[h], net(h, socks[h]));
    }
  }

  // ---------------------------------------------------------------- attaching and draining

  predicate NoPortFree(used: set<u16>) {
    forall p: u16 | InRange(p) :: p in used
  }

  /** The first waiting connection is dropped exactly when no port is free or the
      connect is refused. */
  lemma AttachFirstDrops(t: Table, socks: Socks, now: nat, accepts: Accepted -> bool)
    requires InRange(t.next) && t.pending != []
    requires NoPortFree(t.used) || !accepts(t.pending[0])
    ensures var (u, socks') := AttachFirst(t, socks, now, accepts);
      && u == t.(pending := t.pending[1..], next := u.next, dropped := t.dropped + {t.pending[0].id})
      && (NoPortFree(t.used) ==> u.next == t.next) && socks' == socks
  {
    FirstFreePortMeaning(t.used, t.next);
  }

  /** Otherwise it gets the first free port in cyclic order and a socket of its own. */
  lemma AttachFirstAttaches(t: Table, socks: Socks, now: nat, accepts: Accepted -> bool)
    requires InRange(t.next) && t.pending != []
    requires !NoPortFree(t.used) && accepts(t.pending[0])
    ensures var (u, socks') := AttachFirst(t, socks, now, accepts);
      var a, h, port := t.pending[0], FreshHandle(socks), FirstFreePort(t.used, t.next);
      && port.Some? && InRange(port.value) && port.value !in t.used
      && u == t.(pending := t.pending[1..], next := Cyclic(port.value, 1),
                 states := t.states[h := Connecting(Host(a.id, [], []), now)],
                 port := t.port[h := port.value], used := t.used + {port.value}, owner := t.owner[h := a.id])
      && h !in socks && socks' == socks[h := ConnectSocket(a.namespacePort, port.value)]
  {
    FirstFreePortMeaning(t.used, t.next);
  }

  /** The component after the first k waiting connections have had their turn. */
  function AfterTurns(t: Table, socks: Socks, now: nat, accepts: Accepted -> bool, k: nat): (r: (Table, Socks))
    requires InRange(t.next) && k <= |t.pending|
    ensures r.0.pending == t.pending[k..] && InRange(r.0.next)
  {
    if k == 0 then (t, socks) else
      var (t1, socks1) := AfterTurns(t, socks, now, accepts, k - 1);
      FirstFreePortMeaning(t1.used, t1.next);
      AttachFirst(t1, socks1, now, accepts)
  }

  lemma {:induction false} AttachIsTurns(t: Table, socks: Socks, now: nat, accepts: Accepted -> bool, k: nat)
    requires InRange(t.next) && k <= |t.pending|
    ensures var (t1, socks1) := AfterTurns(t, socks, now, accepts, k);
      AttachPending(t, socks, now, accepts) == AttachPending(t1, socks1, now, accepts)
  {
    if k > 0 {
      AttachIsTurns(t, socks, now, accepts, k - 1);
      var (t1, socks1) := AfterTurns(t, socks, now, accepts, k - 1);
      OneTurn(t1, socks1, now, accepts);
    }
  }

  lemma OneTurn(t: Table, socks: Socks, now: nat, accepts: Accepted -> bool)
    requires InRange(t.next) && t.pending != []
    ensures var (t1, socks1) := AttachFirst(t, socks, now, accepts);
      InRange(t1.next) && AttachPending(t, socks, now, accepts) == AttachPending(t1, socks1, now, accepts)
  {
    FirstFreePortMeaning(t.used, t.next);
  }

  lemma {:induction false} TurnsKeep(t: Table, socks: Socks, now: nat, accepts: Accepted -> bool, k: nat, polls: nat)
    requires TableInv(t, socks, polls) && k <= |t.pending|
    ensures var (t1, socks1) := AfterTurns(t, socks, now, accepts, k); TableInv(t1, socks1, polls)
    ensures socks.Keys <= AfterTurns(t, socks, now, accepts, k).1.Keys
  {
    if k > 0 {
      TurnsKeep(t, socks, now, accepts, k - 1, polls);
      var (t1, socks1) := AfterTurns(t, socks, now, accepts, k - 1);
      AttachFirstKeeps(t1, socks1, now, accepts, polls);
    }
  }

  /** What a turn has settled stays settled. */
  ghost predicate Settled(t: Table, socks: Socks, u: Table, socks': Socks) {
    && t.dropped <= u.dropped && socks.Keys <= socks'.Keys
    && (forall h | h in t.states && h in t.port && h in t.owner ::
          && h in u.states && h in u.port && h in u.owner
          && u.states[h] == t.states[h] && u.port[h] == t.port[h] && u.owner[h] == t.owner[h])
    && (forall h | h in socks :: socks'[h] == socks[h])
  }

  lemma TurnSettles(t: Table, socks: Socks, now: nat, accepts: Accepted -> bool)
    requires InRange(t.next) && t.pending != [] && t.states.Keys <= socks.Keys
    ensures var (u, socks') := AttachFirst(t, socks, now, accepts); Settled(t, socks, u, socks')
  {
  }

  lemma {:induction false} TurnsSettle(t: Table, socks: Socks, now: nat, accepts: Accepted -> bool, polls: nat,
                                       k: nat, m: nat)
    requires TableInv(t, socks, polls) && k <= m <= |t.pending|
    ensures var (t1, socks1) := AfterTurns(t, socks, now, accepts, k);
      var (t2, socks2) := AfterTurns(t, socks, now, accepts, m);
      Settled(t1, socks1, t2, socks2)
  {
    if k < m {
      TurnsSettle(t, socks, now, accepts, polls, k, m - 1);
      TurnsKeep(t, socks, now, accepts, m - 1, polls);
      var (t1, socks1) := AfterTurns(t, socks, now, accepts, m - 1);
      TurnSettles(t1, socks1, now, accepts);
    }
  }

  /** After all turns the pass is over. */
  lemma AllTurns(t: Table, socks: Socks, now: nat, accepts: Accepted -> bool)
    requires InRange(t.next)
    ensures AttachPending(t, socks, now, accepts) == AfterTurns(t, socks, now, accepts, |t.pending|)
  {
    AttachIsTurns(t, socks, now, accepts, |t.pending|);
  }

  /** Attached, as a new connection of its own. */
  ghost predicate AttachedAs(u: Table, socks: Socks, h: Handle, a: Accepted, port: u16, now: nat) {
    && h in u.states && h in u.port && h in u.owner && h in socks
    && u.states[h] == Connecting(Host(a.id, [], []), now)
    && socks[h].state.SynSent? && socks[h].local == Some((TUN_GW, port))
    && socks[h].remote == Some((TUN_ADDR, a.namespacePort))
    && u.port[h] == port && u.owner[h] == a.id
  }

  /** What happens to one waiting connection at its turn. */
  lemma TurnDecides(t: Table, socks: Socks, now: nat, accepts: Accepted -> bool) returns (h: Handle)
    requires InRange(t.next) && t.pending != []
    ensures var (u, socks') := AttachFirst(t, socks, now, accepts);
      var a, port := t.pending[0], FirstFreePort(t.used, t.next);
      if NoPortFree(t.used) || !accepts(a) then a.id in u.dropped
      else h !in socks && port.Some? && port.value !in t.used && AttachedAs(u, socks', h, a, port.value, now)
  {
    h := FreshHandle(socks);
    if NoPortFree(t.used) || !accepts(t.pending[0]) {
      AttachFirstDrops(t, socks, now, accepts);
    } else {
      AttachFirstAttaches(t, socks, now, accepts);
    }
  }

  lemma EachPendingIsDecided(t: Table, socks: Socks, now: nat, accepts: Accepted -> bool, polls: nat, k: nat)
    returns (h: Handle)
    requires TableInv(t, socks, polls) && k < |t.pending|
    ensures var turn := AfterTurns(t, socks, now, accepts, k).0;
      var (u, socks') := AttachPending(t, socks, now, accepts);
      var a, port := t.pending[k], FirstFreePort(turn.used, turn.next);
      if NoPortFree(turn.used) || !accepts(a) then a.id in u.dropped
      else h !in socks && port.Some? && port.value !in turn.used && AttachedAs(u, socks', h, a, port.value, now)
  {
    var (turn, turnSocks) := AfterTurns(t, socks, now, accepts, k);
    TurnsKeep(t, socks, now, accepts, k, polls);
    assert turn.pending[0] == t.pending[k];
    h := TurnDecides(turn, turnSocks, now, accepts);
    TurnsSettle(t, socks, now, accepts, polls, k + 1, |t.pending|);
    AllTurns(t, socks, now, accepts);
  }

  /** Over the whole pass, each waiting connection is dropped if and only if its
      connect is refused or no port is free when its turn comes; otherwise exactly
      one handle, a new one, carries it, on the first port that is then free. */
  lemma EachWaitingIsDecided(t: Table, socks: Socks, now: nat, accepts: Accepted -> bool, polls: nat, k: nat)
    returns (h: Handle)
    requires TableInv(t, socks, polls) && k < |Waiting(t)|
    ensures var turn := AfterTurns(DrainChannel(t), socks, now, accepts, k).0;
      var (u, socks') := AttachAccepted(t, socks, now, accepts);
      var a, port := Waiting(t)[k], FirstFreePort(turn.used, turn.next);
      && (a.id in u.dropped <==> NoPortFree(turn.used) || !accepts(a))
      && (a.id !in u.dropped ==>
            && h !in socks && port.Some? && port.value !in turn.used && AttachedAs(u, socks', h, a, port.value, now)
            && forall g | g in u.owner && u.owner[g] == a.id :: g == h)
  {
    var drained := DrainChannel(t);
    ReceiveKeeps(t);
    h := EachPendingIsDecided(drained, socks, now, accepts, polls, k);
    AttachAcceptedKeeps(t, socks, now, accepts, polls);
    var u := AttachAccepted(t, socks, now, accepts).0;
    if h in u.owner {
      assert u.owner[h] in u.owner.Values;
    }
  }

  /** A range without a free port is as large as it can be. */
  lemma {:induction false} FullRange(used: set<u16>, n: nat)
    requires n <= CAPACITY && forall p: u16 | PORT_MIN <= p < PORT_MIN + n :: p in used
    ensures |used| >= n
  {
    if n > 0 {
      var last: u16 := PORT_MIN + n - 1;
      FullRange(used - {last}, n - 1);
    }
  }

  lemma {:induction false} TurnsUsePorts(t: Table, socks: Socks, now: nat, accepts: Accepted -> bool, k: nat)
    requires InRange(t.next) && k <= |t.pending|
    ensures |AfterTurns(t, socks, now, accepts, k).0.used| <= |t.used| + k
  {
    if k > 0 {
      TurnsUsePorts(t, socks, now, accepts, k - 1);
    }
  }

  /** With enough free ports and no refusal, every waiting connection gets a handle
      and none is dropped. */
  lemma EnoughPortsAttachAll(t: Table, socks: Socks, now: nat, accepts: Accepted -> bool, polls: nat, k: nat)
    returns (h: Handle)
    requires TableInv(t, socks, polls) && k < |Waiting(t)|
    requires |t.used| + |Waiting(t)| <= 16384 && forall a | a in Waiting(t) :: accepts(a)
    ensures var u := AttachAccepted(t, socks, now, accepts).0;
      && Waiting(t)[k].id !in u.dropped
      && h !in socks && h in u.owner && u.owner[h] == Waiting(t)[k].id && h in u.states && u.states[h].Connecting?
  {
    h := EachWaitingIsDecided(t, socks, now, accepts, polls, k);
    var turn := AfterTurns(DrainChannel(t), socks, now, accepts, k).0;
    TurnsUsePorts(DrainChannel(t), socks, now, accepts, k);
    if NoPortFree(turn.used) {
      FullRange(turn.used, CAPACITY);
    }
    assert Waiting(t)[k] in Waiting(t);
  }

  /** Once the namespace has half-closed, a pass without faults closes exactly when
      nothing is on the way in either direction and the host offers nothing new. */
  lemma HalfClosedConnectionClosesDrained(c: ConnectionContext, s: Socket, io: Io, polls: nat)
    requires Flow(c, s) && s.Valid() && s.state.CloseWait? && Faultless(io)
    ensures ShuttleStep(Conn.Established(c), s, io, polls).0.Closing? <==>
      && c.hostToNamespace == [] && s.tx == []
      && (s.rx == [] || (io.write.Wrote? && io.write.n >= |s.rx|))
      && (c.closeAfterDrain || !io.read.HostData? || io.read.bytes == [])
  {
    var l := Link(c, s, false);
    var l1 := Fill(l, io.read);
    FillSees(l, io.read);
    assert l1.context.hostToNamespace == [] <==>
      c.hostToNamespace == [] && (c.closeAfterDrain || !io.read.HostData? || io.read.bytes == []);
    PushEmptiesNothing(l1, io.send);
    var l2 := Push(l1, io.send);
    assert l2.socket.rx == s.rx && l2.socket.state == s.state;
    var l3 := Downlink(l2, io.write);
    assert l3.socket.tx == l2.socket.tx && !l3.failed && l3.socket.state == s.state;
    assert l3.socket.rx == [] <==> s.rx == [] || (io.write.Wrote? && io.write.n >= |s.rx|);
  }
}

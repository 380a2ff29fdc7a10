/**
 * Host-originated TCP: accepted host connections, their source ports, and the
 * forwarding loop, specified as functions on values. The class that performs
 * these steps in place is in PublishedTcp.dfy.
 */
module Published {
  import opened Common
  import opened Targets
  import opened Sockets
  import opened Ports

  /** A connection accepted from a host listener; ids count arrivals. */
  datatype Accepted = Accepted(id: nat, namespacePort: u16)

  /** The host side of a connection, as the two histories of its stream. */
  datatype Host = Host(id: nat, read: seq<byte>, written: seq<byte>)

  datatype ConnectionContext = ConnectionContext(host: Host, hostToNamespace: seq<byte>, closeAfterDrain: bool)

  /** `Closing.since` is a history: how many polls had completed on entry. */
  datatype Conn =
    | Connecting(host: Host, createdAt: nat)
    | Established(context: ConnectionContext)
    | Closing(since: nat)

  /** The component, with histories for what became of every arrival: `owner`
      says which arrival a handle carries, `dropped` and `finished` are those
      refused a socket and those whose socket has been removed. */
  datatype Table = Table(
    states: map<Handle, Conn>, port: map<Handle, u16>, next: u16, used: set<u16>,
    channel: seq<Accepted>, pending: seq<Accepted>,
    arrived: nat, owner: map<Handle, nat>, dropped: set<nat>, finished: set<nat>)

  const EMPTY: Table := Table(map[], map[], PORT_MIN, {}, [], [], 0, map[], {}, {})

  function Rank(c: Conn): nat {
    match c
    case Connecting(_, _) => 0
    case Established(_) => 1
    case Closing(_) => 2
  }

  // ---------------------------------------------------------------- arrivals

  /** An accept task puts one connection in the channel. */
  function Arrive(t: Table, namespacePort: u16): Table {
    t.(channel := t.channel + [Accepted(t.arrived, namespacePort)], arrived := t.arrived + 1)
  }

  /** `poll_ready` moves at most one connection from the channel. */
  function Receive(t: Table): Table {
    if t.channel == [] then t
    else t.(channel := t.channel[1..], pending := t.pending + [t.channel[0]])
  }

  function DrainChannel(t: Table): Table {
    t.(channel := [], pending := t.pending + t.channel)
  }

  /** A socket connecting to a port in the namespace from a port of ours. */
  function ConnectSocket(namespacePort: u16, localPort: u16): Socket {
    FRESH_SOCKET.(state := SynSent, local := Some((TUN_GW, localPort)), remote := Some((TUN_ADDR, namespacePort)))
  }

  /** Give the first pending connection a port and a socket, or drop it. */
  function AttachFirst(t: Table, socks: Socks, now: nat, accepts: Accepted -> bool): (Table, Socks)
    requires t.pending != [] && InRange(t.next)
  {
    FirstFreePortMeaning(t.used, t.next);
    var a := t.pending[0];
    var port := FirstFreePort(t.used, t.next);
    var t1 := t.(pending := t.pending[1..], next := CursorAfter(t.next, port));
    if port.None? || !accepts(a) then
      (t1.(dropped := t.dropped + {a.id}), socks)
    else
      var h := FreshHandle(socks);
      (t1.(states := t.states[h := Connecting(Host(a.id, [], []), now)],
           port := t.port[h := port.value], used := t.used + {port.value}, owner := t.owner[h := a.id]),
       socks[h := ConnectSocket(a.namespacePort, port.value)])
  }

  function AttachPending(t: Table, socks: Socks, now: nat, accepts: Accepted -> bool): (Table, Socks)
    requires InRange(t.next)
    decreases |t.pending|
  {
    if t.pending == [] then (t, socks) else
      var (t1, socks1) := AttachFirst(t, socks, now, accepts);
      AttachPending(t1, socks1, now, accepts)
  }

  function AttachAccepted(t: Table, socks: Socks, now: nat, accepts: Accepted -> bool): (Table, Socks)
    requires InRange(t.next)
  {
    AttachPending(DrainChannel(t), socks, now, accepts)
  }

  // ---------------------------------------------------------------- handshake

  function ConnectStep(c: Conn, s: Socket, now: nat, polls: nat): (Conn, Socket) {
    if !c.Connecting? then (c, s)
    else if s.Connected() then (Conn.Established(ConnectionContext(c.host, [], false)), s)
    else if s.Dead() then (Conn.Closing(polls), s)
    else if now - c.createdAt >= TCP_HANDSHAKE_TIMEOUT then (Conn.Closing(polls), s.Abort())
    else (c, s)
  }

  function ConnectPass(now: nat, polls: nat): Pass<Conn> {
    (c: Conn, s: Socket, h: Handle) => ConnectStep(c, s, now, polls)
  }

  function PollConnecting(t: Table, socks: Socks, now: nat, polls: nat): (Table, Socks)
    requires t.states.Keys <= socks.Keys
  {
    var pass := ConnectPass(now, polls);
    (t.(states := EachState(t.states, socks, pass)), EachSocket(t.states, socks, pass))
  }

  // ---------------------------------------------------------------- forwarding

  /** What one read of the host stream may answer; no bytes means end of file. */
  datatype HostAnswer = HostData(bytes: seq<byte>) | HostBlock | HostFault

  datatype Io = Io(read: HostAnswer, send: SendAnswer, write: WriteAnswer)

  datatype Link = Link(context: ConnectionContext, socket: Socket, failed: bool)

  /** Host to buffer. */
  function Fill(l: Link, answer: HostAnswer): Link {
    var c := l.context;
    if c.closeAfterDrain || |c.hostToNamespace| >= TCP_BUF_SIZE then l else
      match answer
      case HostData(bytes) =>
        var got := bytes[..Min(|bytes|, TCP_BUF_SIZE - |c.hostToNamespace|)];
        if got == [] then l.(context := c.(closeAfterDrain := true))
        else l.(context := c.(host := c.host.(read := c.host.read + got),
                              hostToNamespace := c.hostToNamespace + got))
      case HostBlock => l
      case HostFault => l.(failed := true)
  }

  /** Buffer to namespace: the send queue accepts a prefix of the buffer. */
  function Push(l: Link, answer: SendAnswer): Link {
    var buffer := l.context.hostToNamespace;
    if buffer == [] || !l.socket.CanSend() then l else
      match answer
      case Accept(n) =>
        var k := Min(n, Min(TCP_BUF_SIZE - |l.socket.tx|, |buffer|));
        l.(context := l.context.(hostToNamespace := buffer[k..]), socket := l.socket.Enqueue(buffer[..k]))
      case Refuse => l.(failed := true)
  }

  /** Namespace to host: the host stream takes a prefix of the receive queue. */
  function Downlink(l: Link, answer: WriteAnswer): Link {
    if !l.socket.CanRecv() then l else
      match answer
      case Wrote(n) =>
        var k := Min(n, |l.socket.rx|);
        var host := l.context.host;
        l.(context := l.context.(host := host.(written := host.written + l.socket.rx[..k])),
           socket := l.socket.Dequeue(k))
      case WriteBlock => l
      case WriteFault => l.(failed := true)
  }

  /** The namespace will send nothing more and all it sent is taken. */
  function NoteHalfClose(l: Link): Link {
    if !l.socket.MayRecv() && l.socket.rx == [] then l.(context := l.context.(closeAfterDrain := true)) else l
  }

  function Pump(l: Link, io: Io): Link {
    NoteHalfClose(Downlink(Push(Fill(l, io.read), io.send), io.write))
  }

  predicate Drained(l: Link) {
    l.context.closeAfterDrain && l.context.hostToNamespace == [] && l.socket.tx == [] && l.socket.rx == []
  }

  function ShuttleStep(c: Conn, s: Socket, io: Io, polls: nat): (Conn, Socket) {
    if !c.Established? then (c, s) else
      var l := Pump(Link(c.context, s, false), io);
      if l.socket.Dead() then (Conn.Closing(polls), l.socket)
      else if l.failed || Drained(l) then (Conn.Closing(polls), l.socket.Abort())
      else (Conn.Established(l.context), l.socket)
  }

  function ShuttlePass(ios: Handle -> Io, polls: nat): Pass<Conn> {
    (c: Conn, s: Socket, h: Handle) => ShuttleStep(c, s, ios(h), polls)
  }

  function Shuttle(t: Table, socks: Socks, ios: Handle -> Io, polls: nat): (Table, Socks)
    requires t.states.Keys <= socks.Keys
  {
    var pass := ShuttlePass(ios, polls);
    (t.(states := EachState(t.states, socks, pass)), EachSocket(t.states, socks, pass))
  }

  // ---------------------------------------------------------------- cleanup

  function ClosingHandles(t: Table): set<Handle> {
    set h | h in t.states && t.states[h].Closing?
  }

  function ValuesAt<V>(m: map<Handle, V>, hs: set<Handle>): set<V> {
    set h | h in hs && h in m :: m[h]
  }

  /** The table and the sockets without the connections in `gone`. */
  function Removed(t: Table, socks: Socks, gone: set<Handle>): (Table, Socks) {
    (t.(states := t.states - gone, port := t.port - gone, used := t.used - ValuesAt(t.port, gone),
        owner := t.owner - gone, finished := t.finished + ValuesAt(t.owner, gone)),
     socks - gone)
  }

  lemma RemovedNone(t: Table, socks: Socks)
    ensures Removed(t, socks, {}) == (t, socks)
  {
    var (u, socks') := Removed(t, socks, {});
    assert u.states == t.states && u.port == t.port && u.owner == t.owner && socks' == socks;
    assert u.used == t.used && u.finished == t.finished;
  }

  lemma RemovedOneMore(t: Table, socks: Socks, gone: set<Handle>, h: Handle)
    requires h !in gone
    ensures var (u, socks') := Removed(t, socks, gone); Removed(u, socks', {h}) == Removed(t, socks, gone + {h})
  {
    var all := gone + {h};
    var (u, socks') := Removed(t, socks, gone);
    var v, w := Removed(u, socks', {h}).0, Removed(t, socks, all).0;
    assert t.states - gone - {h} == t.states - all && t.port - gone - {h} == t.port - all;
    assert t.owner - gone - {h} == t.owner - all && socks - gone - {h} == socks - all;
    assert ValuesAt(t.port, gone) + ValuesAt(t.port - gone, {h}) == ValuesAt(t.port, all);
    assert ValuesAt(t.owner, gone) + ValuesAt(t.owner - gone, {h}) == ValuesAt(t.owner, all);
    assert v.used == w.used && v.finished == w.finished;
  }

  function Cleanup(t: Table, socks: Socks): (Table, Socks) {
    Removed(t, socks, ClosingHandles(t))
  }
}

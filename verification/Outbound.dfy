/**
 * Namespace-originated TCP: listener bookkeeping, upstream connects, and the
 * forwarding loop, specified as functions on values. The class that performs
 * these steps in place is in OutboundTcp.dfy.
 */
module Outbound {
  import opened Common
  import opened Targets
  import opened Sockets
  import opened ProxyStreams

  /** Source address and port, destination address and port. */
  datatype Key = Key(srcIp: u32, srcPort: u16, dstIp: u32, dstPort: u16)

  datatype ReadState = Open | Eof | ReadFailed

  datatype ForwardContext = ForwardContext(stream: ProxyStream, proxyToApp: seq<byte>, readState: ReadState)

  /** `Closing.since` is a history: how many polls had completed on entry. */
  datatype Conn =
    | Listening(createdAt: nat)
    | Connecting(route: Route)
    | Established(context: ForwardContext)
    | Closing(since: nat)

  datatype Table = Table(states: map<Handle, Conn>, live: set<Key>, endpoint: map<Handle, Key>)

  const EMPTY: Table := Table(map[], {}, map[])

  function Rank(c: Conn): nat {
    match c
    case Listening(_) => 0
    case Connecting(_) => 1
    case Established(_) => 2
    case Closing(_) => 3
  }

  // ---------------------------------------------------------------- SYN observation

  datatype Syn = Syn(key: Key, now: nat)

  function ListenSocket(port: u16): Socket {
    FRESH_SOCKET.(state := Listen, listening := Some(port))
  }

  /** A SYN with an unseen key gets a listening socket in a fresh slot; smoltcp
      refuses to listen on port 0. */
  function ObserveSyn(t: Table, socks: Socks, syn: Syn): (Table, Socks) {
    if syn.key in t.live || syn.key.dstPort == 0 then (t, socks) else
      var h := FreshHandle(socks);
      (Table(t.states[h := Listening(syn.now)], t.live + {syn.key}, t.endpoint[h := syn.key]),
       socks[h := ListenSocket(syn.key.dstPort)])
  }

  function ObserveSyns(t: Table, socks: Socks, syns: seq<Syn>): (Table, Socks) {
    if syns == [] then (t, socks) else
      var (t1, socks1) := ObserveSyns(t, socks, syns[..|syns| - 1]);
      ObserveSyn(t1, socks1, syns[|syns| - 1])
  }

  // ---------------------------------------------------------------- listeners

  /** One pass of `update_listeners` over one connection. */
  function ListenerStep(c: Conn, s: Socket, now: nat, polls: nat, plan: Endpoint -> Route): (Conn, Socket) {
    if !c.Listening? then (c, s)
    else if s.Connected() then
      (if s.local.None? then c else Connecting(plan(s.local.value)), s)
    else if s.Dead() then (Conn.Closing(polls), s)
    else if now - c.createdAt >= TCP_HANDSHAKE_TIMEOUT then (Conn.Closing(polls), s.Abort())
    else (c, s)
  }

  function ListenerPass(now: nat, polls: nat, plan: Endpoint -> Route): Pass<Conn> {
    (c: Conn, s: Socket, h: Handle) => ListenerStep(c, s, now, polls, plan)
  }

  function UpdateListeners(t: Table, socks: Socks, now: nat, polls: nat, plan: Endpoint -> Route): (Table, Socks)
    requires t.states.Keys <= socks.Keys
  {
    var pass := ListenerPass(now, polls, plan);
    (t.(states := EachState(t.states, socks, pass)), EachSocket(t.states, socks, pass))
  }

  // ---------------------------------------------------------------- upstream connects

  /** What polling a connect task answers; a panic is a join error. */
  datatype ConnectAnswer = Connected(stream: ProxyStream) | Refused | Panicked | Pending

  /** The namespace side has gone while the upstream connect is pending. */
  predicate ClientGone(s: Socket) {
    s.Dead() || s.state.Closing? || s.state.FinWait1? || s.state.FinWait2? || s.state.LastAck?
  }

  function ConnectStep(c: Conn, s: Socket, answer: ConnectAnswer, polls: nat): (Conn, Socket) {
    if !c.Connecting? then (c, s)
    else match answer
      case Connected(stream) => (Conn.Established(ForwardContext(stream, [], Open)), s)
      case Refused => (Conn.Closing(polls), s.Abort())
      case Panicked => (Conn.Closing(polls), s.Abort())
      case Pending => if ClientGone(s) then (Conn.Closing(polls), s.Abort()) else (c, s)
  }

  /** Connect tasks hand over a stream from which nothing has been read yet. */
  ghost predicate ConnectContract(connects: Handle -> ConnectAnswer) {
    forall h :: NewlyConnected(connects(h))
  }

  ghost predicate NewlyConnected(a: ConnectAnswer) {
    a.Connected? ==> a.stream.handed == [] && a.stream.written == []
  }

  function ConnectPass(connects: Handle -> ConnectAnswer, polls: nat): Pass<Conn> {
    (c: Conn, s: Socket, h: Handle) => ConnectStep(c, s, connects(h), polls)
  }

  function PollConnecting(t: Table, socks: Socks, connects: Handle -> ConnectAnswer, polls: nat): (Table, Socks)
    requires t.states.Keys <= socks.Keys
  {
    var pass := ConnectPass(connects, polls);
    (t.(states := EachState(t.states, socks, pass)), EachSocket(t.states, socks, pass))
  }

  // ---------------------------------------------------------------- forwarding

  datatype Io = Io(write: WriteAnswer, read: ReadAnswer, send: SendAnswer)

  datatype Link = Link(context: ForwardContext, socket: Socket)

  /** Application to upstream: the stream takes a prefix of the receive queue. */
  function Uplink(l: Link, answer: WriteAnswer): Link {
    if !l.socket.CanRecv() then l else
      match answer
      case Wrote(n) =>
        var k := Min(n, |l.socket.rx|);
        var stream := l.context.stream;
        Link(l.context.(stream := stream.(written := stream.written + l.socket.rx[..k])), l.socket.Dequeue(k))
      case WriteBlock => l
      case WriteFault => l.(socket := l.socket.Abort())
  }

  /** Upstream to buffer: at most the free space of the buffer is read. */
  function Fill(l: Link, answer: ReadAnswer): Link
  {
    var c := l.context;
    if !c.readState.Open? || |c.proxyToApp| >= TCP_BUF_SIZE then l else
      var (stream, result) := ReadSpec(c.stream, TCP_BUF_SIZE - |c.proxyToApp|, answer);
      match result
      case Data(bytes) =>
        if bytes == [] then l.(context := c.(stream := stream, readState := Eof))
        else l.(context := c.(stream := stream, proxyToApp := c.proxyToApp + bytes))
      case WouldBlock => l.(context := c.(stream := stream))
      case Failed => Link(c.(stream := stream, readState := ReadFailed), l.socket.Abort())
  }

  /** Buffer to application: the send queue accepts a prefix of the buffer. */
  function Push(l: Link, answer: SendAnswer): Link {
    var buffer := l.context.proxyToApp;
    if buffer == [] || !l.socket.CanSend() then l else
      match answer
      case Accept(n) =>
        var k := Min(n, Min(TCP_BUF_SIZE - |l.socket.tx|, |buffer|));
        Link(l.context.(proxyToApp := buffer[k..]), l.socket.Enqueue(buffer[..k]))
      case Refuse => l.(socket := l.socket.Abort())
  }

  /** All bytes from upstream have been sent and acknowledged. */
  predicate DrainedAfterEof(l: Link) {
    l.context.readState.Eof? && l.context.proxyToApp == [] && l.socket.tx == [] && l.socket.MaySend()
  }

  predicate MustClose(l: Link) {
    DrainedAfterEof(l) || !l.socket.MayRecv() || !l.socket.MaySend()
  }

  function Pump(l: Link, io: Io): (r: Link)
  {
    Push(Fill(Uplink(l, io.write), io.read), io.send)
  }

  /** One pass of `shuttle_established` over one connection. */
  function ShuttleStep(c: Conn, s: Socket, io: Io, polls: nat): (Conn, Socket)
  {
    if !c.Established? then (c, s) else
      var l := Pump(Link(c.context, s), io);
      if MustClose(l) then (Conn.Closing(polls), l.socket.Abort()) else (Conn.Established(l.context), l.socket)
  }

  function ShuttlePass(ios: Handle -> Io, polls: nat): Pass<Conn> {
    (c: Conn, s: Socket, h: Handle) => ShuttleStep(c, s, ios(h), polls)
  }

  function Shuttle(t: Table, socks: Socks, ios: Handle -> Io, polls: nat): (Table, Socks)
    requires t.states.Keys <= socks.Keys
  {
    var pass := ShuttlePass(ios, polls);
    (t.(states := EachState(t.states, socks, pass)), EachSocket(t.states, socks, pass))
  }

  // ---------------------------------------------------------------- cleanup

  function ClosingHandles(t: Table): set<Handle> {
    set h | h in t.states && t.states[h].Closing?
  }

  function Cleanup(t: Table, socks: Socks): (Table, Socks) {
    var gone := ClosingHandles(t);
    (Table(t.states - gone,
           t.live - (set h | h in gone && h in t.endpoint :: t.endpoint[h]),
           t.endpoint - gone),
     socks - gone)
  }
}

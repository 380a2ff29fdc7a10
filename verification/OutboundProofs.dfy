/** What every outbound step keeps, and when a close loses bytes. */
module OutboundProofs {
  import opened Common
  import opened Targets
  import opened Sockets
  import opened ProxyStreams
  import opened Outbound

  // ---------------------------------------------------------------- one connection

  /** Bytes are neither lost, duplicated nor reordered in either direction, the
      buffer is bounded, and end-of-file is believed only at the end. */
  ghost predicate Flow(c: ForwardContext, s: Socket) {
    && s.accepted + c.proxyToApp == c.stream.handed
    && s.taken == c.stream.written
    && |c.proxyToApp| <= TCP_BUF_SIZE
    && (c.readState.Eof? ==> c.stream.Remaining() == [])
    && (c.readState.ReadFailed? ==> s.state.Closed?)
  }

  ghost predicate Consistent(c: Conn, s: Socket, polls: nat) {
    && s.Valid()
    && match c
       case Listening(_) => s.Untouched()
       case Connecting(_) => s.Untouched()
       case Established(context) => Flow(context, s)
       case Closing(since) => s.Dead() && since <= polls
  }

  lemma UplinkKeepsFlow(l: Link, answer: WriteAnswer)
    requires Flow(l.context, l.socket) && l.socket.Valid()
    ensures var m := Uplink(l, answer);
      && Flow(m.context, m.socket) && m.socket.Valid()
      && m.context.stream.Tunnel() == l.context.stream.Tunnel()
      && m.socket.Received() == l.socket.Received()
  {
    if l.socket.CanRecv() && answer.Wrote? {
      var k := Min(answer.n, |l.socket.rx|);
      assert l.socket.rx == l.socket.rx[..k] + l.socket.rx[k..];
    }
  }

  predicate Reading(c: ForwardContext) {
    c.readState.Open? && |c.proxyToApp| < TCP_BUF_SIZE
  }

  lemma ReadMoves(l: Link, answer: ReadAnswer) returns (bytes: seq<byte>)
    requires Reading(l.context)
    ensures Moved(l, bytes, Fill(l, answer))
  {
    var c := l.context;
    var space := TCP_BUF_SIZE - |c.proxyToApp|;
    ReadKeepsTunnel(c.stream, space, answer);
    var (stream, result) := ReadSpec(c.stream, space, answer);
    bytes := if result.Data? then result.bytes else [];
    NothingMoved(c);
    BufferedRead(l, stream, result, Fill(l, answer));
  }

  lemma BufferedRead(l: Link, stream: ProxyStream, result: ReadResult, m: Link)
    requires Reading(l.context)
    requires m == match result
      case Data(bytes) =>
        if bytes == [] then l.(context := l.context.(stream := stream, readState := Eof))
        else l.(context := l.context.(stream := stream, proxyToApp := l.context.proxyToApp + bytes))
      case WouldBlock => l.(context := l.context.(stream := stream))
      case Failed => Link(l.context.(stream := stream, readState := ReadFailed), l.socket.Abort())
    ensures m.context.stream == stream && (m.socket == l.socket || m.socket == l.socket.Abort())
    ensures m.context.proxyToApp == if result.Data? then l.context.proxyToApp + result.bytes else l.context.proxyToApp
    ensures m.context.readState.Eof? <==> result == Data([])
    ensures m.context.readState.ReadFailed? ==> m.socket == l.socket.Abort()
  {
    NothingMoved(l.context);
  }

  lemma NothingMoved(c: ForwardContext)
    ensures c.stream.handed + [] == c.stream.handed && c.proxyToApp + [] == c.proxyToApp
  {
  }

  /** The stream has handed over `bytes`, and they are in the buffer. */
  ghost predicate Moved(l: Link, bytes: seq<byte>, m: Link) {
    var c := l.context;
    && m.context.stream.handed == c.stream.handed + bytes && m.context.proxyToApp == c.proxyToApp + bytes
    && m.context.stream.Tunnel() == c.stream.Tunnel() && m.context.stream.written == c.stream.written
    && |m.context.proxyToApp| <= Max(TCP_BUF_SIZE, |c.proxyToApp|)
    && (m.context.readState.Eof? ==> m.context.stream.Remaining() == [] || (c.readState.Eof? && m == l))
    && (m.socket == l.socket || m.socket == l.socket.Abort())
    && (m.context.readState.ReadFailed? ==> c.readState.ReadFailed? || m.socket == l.socket.Abort())
  }

  /** A read appends what the stream hands over to the buffer. */
  lemma FillMoves(l: Link, answer: ReadAnswer) returns (bytes: seq<byte>)
    ensures Moved(l, bytes, Fill(l, answer))
  {
    if Reading(l.context) {
      bytes := ReadMoves(l, answer);
    } else {
      bytes := [];
      NothingMoved(l.context);
    }
  }

  lemma FillKeepsFlow(l: Link, answer: ReadAnswer)
    requires Flow(l.context, l.socket) && l.socket.Valid()
    ensures var m := Fill(l, answer);
      && Flow(m.context, m.socket) && m.socket.Valid()
      && m.context.stream.Tunnel() == l.context.stream.Tunnel()
      && m.socket.Received() == l.socket.Received()
  {
    var bytes := FillMoves(l, answer);
    Assoc(l.socket.accepted, l.context.proxyToApp, bytes);
  }

  lemma PushKeepsFlow(l: Link, answer: SendAnswer)
    requires Flow(l.context, l.socket) && l.socket.Valid()
    ensures var m := Push(l, answer);
      && Flow(m.context, m.socket) && m.socket.Valid()
      && m.context.stream == l.context.stream
      && m.socket.Received() == l.socket.Received()
  {
    var buffer, s := l.context.proxyToApp, l.socket;
    if buffer != [] && s.CanSend() && answer.Accept? {
      var k := Min(answer.n, Min(TCP_BUF_SIZE - |s.tx|, |buffer|));
      assert buffer == buffer[..k] + buffer[k..];
      Assoc(s.accepted, buffer[..k], buffer[k..]);
      Assoc(s.acked, s.tx, buffer[..k]);
    }
  }

  /** The conservation law of one forwarding pass, for every I/O answer. */
  lemma PumpKeepsFlow(l: Link, io: Io)
    requires Flow(l.context, l.socket) && l.socket.Valid()
    ensures var m := Pump(l, io);
      && Flow(m.context, m.socket) && m.socket.Valid()
      && m.context.stream.Tunnel() == l.context.stream.Tunnel()
      && m.socket.Received() == l.socket.Received()
      && m.socket.acked == l.socket.acked
  {
    UplinkThenFillKeepsFlow(l, io);
    PushKeepsFlow(Fill(Uplink(l, io.write), io.read), io.send);
  }

  lemma UplinkThenFillKeepsFlow(l: Link, io: Io)
    requires Flow(l.context, l.socket) && l.socket.Valid()
    ensures var m := Fill(Uplink(l, io.write), io.read);
      && Flow(m.context, m.socket) && m.socket.Valid()
      && m.context.stream.Tunnel() == l.context.stream.Tunnel()
      && m.socket.Received() == l.socket.Received() && m.socket.acked == l.socket.acked
  {
    UplinkKeepsFlow(l, io.write);
    var l1 := Uplink(l, io.write);
    FillKeepsFlow(l1, io.read);
    var bytes := FillMoves(l1, io.read);
  }

  /** Where every byte of the tunnel is while the socket lives: acknowledged, in
      the send queue, in the buffer, or still upstream, in this order. */
  lemma Accounting(c: ForwardContext, s: Socket)
    requires Flow(c, s) && s.Valid() && !s.state.Closed?
    ensures c.stream.Tunnel() == s.acked + s.tx + c.proxyToApp + c.stream.Remaining()
  {
  }

  predicate Faultless(io: Io) {
    !io.write.WriteFault? && !io.read.Fault? && !io.send.Refuse?
  }

  /** Sending cannot empty buffer and queue together: bytes leave the buffer
      only into the queue. */
  lemma PushEmptiesNothing(l: Link, answer: SendAnswer)
    requires !answer.Refuse?
    ensures var m := Push(l, answer);
      && m.socket.state == l.socket.state && m.context.readState == l.context.readState
      && (m.context.proxyToApp == [] && m.socket.tx == [] <==> l.context.proxyToApp == [] && l.socket.tx == [])
  {
  }

  /** With an empty buffer, one read finds the end of the stream exactly when
      nothing remains and the read is answered. */
  lemma FillFindsEnd(l: Link, answer: ReadAnswer)
    requires !answer.Fault? && l.context.readState.Open? && l.context.proxyToApp == []
    ensures var m := Fill(l, answer);
      && m.socket == l.socket
      && (m.context.readState.Eof? && m.context.proxyToApp == [] <==>
            l.context.stream.Remaining() == [] && answer.Avail?)
      && (m.context.readState.Eof? || m.context.readState.Open?)
  {
    ReadKeepsTunnel(l.context.stream, TCP_BUF_SIZE, answer);
  }

  lemma FillOnlyGrows(l: Link, answer: ReadAnswer)
    requires !answer.Fault?
    ensures var m := Fill(l, answer);
      && m.socket == l.socket
      && (m.context.proxyToApp == [] ==> l.context.proxyToApp == [])
  {
  }

  /** How many bytes a pass takes from the application, and how many it sends. */
  function TakenBy(s: Socket, answer: WriteAnswer): nat {
    if answer.Wrote? then Min(answer.n, |s.rx|) else 0
  }

  function SentBy(s: Socket, buffer: seq<byte>, answer: SendAnswer): nat {
    if answer.Accept? && |s.tx| <= 65536 then Min(answer.n, Min(65536 - |s.tx|, |buffer|)) else 0
  }

  /** Something can be read: the buffer has room, and bytes remain that are prefetched
      or readable. */
  predicate CanRead(c: ForwardContext, answer: ReadAnswer) {
    Reading(c) && c.stream.Remaining() != [] && (answer.Avail? || c.stream.HasBufferedData())
  }

  /** What a pass moves, on the histories: `got` is what it reads. */
  ghost predicate PassMoved(c: ForwardContext, s: Socket, io: Io, got: seq<byte>, m: Link) {
    var k, buffer := TakenBy(s, io.write), c.proxyToApp + got;
    var n := SentBy(s, buffer, io.send);
    && m.socket.taken == s.taken + s.rx[..k] && m.socket.rx == s.rx[k..]
    && m.context.stream.written == c.stream.written + s.rx[..k]
    && m.context.stream.handed == c.stream.handed + got && (got != [] <==> CanRead(c, io.read))
    && m.socket.accepted == s.accepted + buffer[..n] && m.socket.tx == s.tx + buffer[..n]
    && m.context.proxyToApp == buffer[n..]
    && m.socket.state == s.state
  }

  lemma UplinkMoves(l: Link, answer: WriteAnswer)
    requires l.socket.Valid() && l.socket.Connected() && !answer.WriteFault?
    ensures var m, k := Uplink(l, answer), TakenBy(l.socket, answer);
      && m.socket == l.socket.(rx := l.socket.rx[k..], taken := l.socket.taken + l.socket.rx[..k])
      && m.context == l.context.(stream := l.context.stream.(written := l.context.stream.written + l.socket.rx[..k]))
  {
    var k := TakenBy(l.socket, answer);
    if k == 0 {
      assert l.socket.rx[..0] == [] && l.socket.rx[0..] == l.socket.rx;
      assert l.socket.taken + [] == l.socket.taken && l.context.stream.written + [] == l.context.stream.written;
    }
  }

  lemma FillGets(l: Link, answer: ReadAnswer) returns (got: seq<byte>)
    requires !answer.Fault?
    ensures var m := Fill(l, answer);
      && m.socket == l.socket
      && m.context.stream.handed == l.context.stream.handed + got && m.context.proxyToApp == l.context.proxyToApp + got
      && m.context.stream.written == l.context.stream.written
      && (got != [] <==> CanRead(l.context, answer))
  {
    var c := l.context;
    got := FillMoves(l, answer);
    if Reading(c) {
      var space := TCP_BUF_SIZE - |c.proxyToApp|;
      ReadHandsOver(c.stream, space, answer);
      ReadKeepsTunnel(c.stream, space, answer);
      GotIsRead(c, got, ReadSpec(c.stream, space, answer).1, Fill(l, answer).context.proxyToApp);
    }
  }

  lemma GotIsRead(c: ForwardContext, got: seq<byte>, result: ReadResult, after: seq<byte>)
    requires after == c.proxyToApp + got
    requires after == if result.Data? then c.proxyToApp + result.bytes else c.proxyToApp
    ensures |got| == if result.Data? then |result.bytes| else 0
  {
  }

  lemma PushMoves(l: Link, answer: SendAnswer)
    requires l.socket.Valid() && l.socket.Connected() && !answer.Refuse?
    ensures var m, buffer := Push(l, answer), l.context.proxyToApp;
      var n := SentBy(l.socket, buffer, answer);
      && m.socket == l.socket.(tx := l.socket.tx + buffer[..n], accepted := l.socket.accepted + buffer[..n])
      && m.context == l.context.(proxyToApp := buffer[n..])
  {
    var buffer := l.context.proxyToApp;
    if SentBy(l.socket, buffer, answer) == 0 {
      assert buffer[..0] == [] && buffer[0..] == buffer;
      assert l.socket.tx + [] == l.socket.tx && l.socket.accepted + [] == l.socket.accepted;
    }
  }

  /** What a faultless pass over a connected socket moves, exactly: from the receive
      queue as much as upstream takes, from upstream at least one byte if any can be
      read, and to the application as much as its socket takes. */
  lemma PassMoves(c: ForwardContext, s: Socket, io: Io) returns (got: seq<byte>)
    requires s.Valid() && s.Connected() && Faultless(io)
    ensures PassMoved(c, s, io, got, Pump(Link(c, s), io))
  {
    got := UplinkThenFill(c, s, io);
    PushMoves(Fill(Uplink(Link(c, s), io.write), io.read), io.send);
  }

  lemma UplinkThenFill(c: ForwardContext, s: Socket, io: Io) returns (got: seq<byte>)
    requires s.Valid() && s.Connected() && Faultless(io)
    ensures var l2, k := Fill(Uplink(Link(c, s), io.write), io.read), TakenBy(s, io.write);
      && l2.socket == s.(rx := s.rx[k..], taken := s.taken + s.rx[..k])
      && l2.context.stream.written == c.stream.written + s.rx[..k]
      && l2.context.stream.handed == c.stream.handed + got && (got != [] <==> CanRead(c, io.read))
      && l2.context.proxyToApp == c.proxyToApp + got
  {
    UplinkMoves(Link(c, s), io.write);
    got := FillGets(Uplink(Link(c, s), io.write), io.read);
  }

  /** The network and the kernel let a byte through to the application. */
  predicate Generous(s: Socket, io: Io) {
    s.Connected() && |s.tx| < 65536 && Faultless(io) && io.read.Avail? && io.send.Accept? && io.send.n > 0
  }

  /** Then a pass that has something left to deliver delivers some of it. */
  lemma GenerousPassDelivers(c: ForwardContext, s: Socket, io: Io)
    requires Flow(c, s) && s.Valid() && Generous(s, io) && s.accepted != c.stream.Tunnel()
    ensures s.accepted <= Pump(Link(c, s), io).socket.accepted
    ensures |Pump(Link(c, s), io).socket.accepted| > |s.accepted|
  {
    var got := PassMoves(c, s, io);
    if c.proxyToApp == [] {
      assert s.accepted + [] == s.accepted;
      assert c.stream.Remaining() != [];
    }
  }

  /** This pass hands the rest of the receive queue to the upstream stream. */
  predicate TakesAll(s: Socket, answer: WriteAnswer) {
    s.rx == [] || (answer.Wrote? && answer.n >= |s.rx|)
  }

  /** Upstream has ended, this pass knows it, and nothing is on the way back. */
  predicate Ended(c: ForwardContext, s: Socket, answer: ReadAnswer) {
    && c.stream.Remaining() == [] && c.proxyToApp == [] && s.tx == []
    && (c.readState.Eof? || (c.readState.Open? && answer.Avail?))
  }

  /** What one pass does to the application's bytes. */
  lemma UplinkTakes(l: Link, answer: WriteAnswer)
    requires l.socket.Valid()
    ensures var m := Uplink(l, answer);
      && (m.socket.rx == [] <==> TakesAll(l.socket, answer))
      && m.socket.Received() == l.socket.Received()
      && (!answer.WriteFault? ==> m.socket.state == l.socket.state)
      && m.socket.tx == l.socket.tx && m.context == l.context.(stream := m.context.stream)
      && m.context.stream.Remaining() == l.context.stream.Remaining()
  {
    if l.socket.CanRecv() && answer.Wrote? {
      var k := Min(answer.n, |l.socket.rx|);
      assert l.socket.rx == l.socket.rx[..k] + l.socket.rx[k..];
    }
  }

  lemma FillAndPushLeaveQueue(l: Link, read: ReadAnswer, send: SendAnswer)
    ensures var m := Push(Fill(l, read), send); m.socket.rx == l.socket.rx && m.socket.taken == l.socket.taken
  {
  }

  /** When a connected socket's pass meets no I/O fault, it closes exactly when
      upstream has ended with nothing on the way back, or the application has
      half-closed and this pass takes the rest of its bytes. */
  lemma PassCloses(c: ForwardContext, s: Socket, io: Io, polls: nat)
    requires Flow(c, s) && s.Valid() && s.Connected() && Faultless(io)
    ensures ShuttleStep(Conn.Established(c), s, io, polls).0.Closing? <==>
      Ended(c, s, io.read) || (s.state.CloseWait? && TakesAll(s, io.write))
  {
    var l := Link(c, s);
    var l1 := Uplink(l, io.write);
    UplinkTakes(l, io.write);
    var l2 := Fill(l1, io.read);
    FillOnlyGrows(l1, io.read);
    PushEmptiesNothing(l2, io.send);
    FillAndPushLeaveQueue(l1, io.read, io.send);
    if c.readState.Open? && c.proxyToApp == [] {
      FillFindsEnd(l1, io.read);
    }
  }

  /** An I/O call that is made and fails: a write with something to write, a read from
      the socket with room for it, or a send with something to send. */
  predicate Fails(c: ForwardContext, s: Socket, io: Io) {
    || (s.rx != [] && io.write.WriteFault?)
    || (Reading(c) && !c.stream.HasBufferedData() && io.read.Fault?)
    || (c.proxyToApp != [] && |s.tx| < 65536 && io.send.Refuse?)
  }

  /** Such a failure closes the connection, and so does a socket that is no longer
      connected, whatever is on the way. */
  lemma FailureCloses(c: ForwardContext, s: Socket, io: Io, polls: nat)
    requires !s.Connected() || Fails(c, s, io)
    ensures var (after, t) := ShuttleStep(Conn.Established(c), s, io, polls); after.Closing? && t.state.Closed?
  {
    var l := Link(c, s);
    var l1 := Uplink(l, io.write);
    var l2 := Fill(l1, io.read);
    if s.Connected() && !(s.rx != [] && io.write.WriteFault?) {
      assert l1.socket.state == s.state && l1.context == c.(stream := l1.context.stream);
      if !(Reading(c) && !c.stream.HasBufferedData() && io.read.Fault?) {
        assert l2.socket.state == s.state && l2.socket.tx == s.tx && l2.context.proxyToApp != [];
        assert Push(l2, io.send).socket.state.Closed?;
      } else {
        assert l2.socket.state.Closed?;
      }
    }
  }

  /** What a closing pass leaves undelivered, whatever the I/O answers: the
      application has acknowledged the whole tunnel if and only if nothing was on
      the way back before the pass, and upstream was given all it sent if and only
      if this pass takes the rest. */
  lemma CloseDelivers(c: ForwardContext, s: Socket, io: Io, polls: nat)
    requires Flow(c, s) && s.Valid() && s.Connected()
    ensures var (after, t) := ShuttleStep(Conn.Established(c), s, io, polls);
      after.Closing? ==>
        && (t.acked == c.stream.Tunnel() <==> s.tx == [] && c.proxyToApp == [] && c.stream.Remaining() == [])
        && (t.taken == s.Received() <==> TakesAll(s, io.write))
  {
    var l := Link(c, s);
    PumpKeepsFlow(l, io);
    Accounting(c, s);
    UplinkTakes(l, io.write);
    FillAndPushLeaveQueue(Uplink(l, io.write), io.read, io.send);
  }

  /** An open connection closes only when the application has acknowledged the
      whole tunnel. Its own last bytes are a different matter: they are dropped
      unless this very pass takes them. */
  lemma OpenConnectionClosesOnlyDrained(c: ForwardContext, s: Socket, io: Io, polls: nat)
    requires Flow(c, s) && s.Valid() && s.state.Established? && Faultless(io)
    ensures var (after, t) := ShuttleStep(Conn.Established(c), s, io, polls);
      && (after.Closing? <==> Ended(c, s, io.read))
      && (after.Closing? ==> t.acked == c.stream.Tunnel())
      && (after.Closing? ==> (t.taken == s.Received() <==> TakesAll(s, io.write)))
  {
    PassCloses(c, s, io, polls);
    CloseDelivers(c, s, io, polls);
  }

  /** Once the application has half-closed, the pass that takes the rest of its
      bytes closes whatever upstream still had to say; without a fault the only
      other reason is that upstream has ended. All of the tunnel reached the
      application if and only if nothing was on the way before the pass. */
  lemma HalfClosedConnectionCloses(c: ForwardContext, s: Socket, io: Io, polls: nat)
    requires Flow(c, s) && s.Valid() && s.state.CloseWait?
    ensures var (after, t) := ShuttleStep(Conn.Established(c), s, io, polls);
      && (TakesAll(s, io.write) ==> after.Closing?)
      && (Faultless(io) ==> (after.Closing? <==> TakesAll(s, io.write) || Ended(c, s, io.read)))
      && (after.Closing? ==>
            && (t.acked == c.stream.Tunnel() <==> s.tx == [] && c.proxyToApp == [] && c.stream.Remaining() == [])
            && (t.taken == s.Received() <==> TakesAll(s, io.write)))
  {
    CloseDelivers(c, s, io, polls);
    if Faultless(io) {
      PassCloses(c, s, io, polls);
    }
    var l1 := Uplink(Link(c, s), io.write);
    UplinkTakes(Link(c, s), io.write);
    FillAndPushLeaveQueue(l1, io.read, io.send);
    StaysHalfClosed(l1, io.read, io.send);
  }

  lemma StaysHalfClosed(l: Link, read: ReadAnswer, send: SendAnswer)
    requires l.socket.state.CloseWait? || l.socket.state.Closed?
    ensures var t := Push(Fill(l, read), send).socket; t.state.CloseWait? || t.state.Closed?
  {
  }

  // ---------------------------------------------------------------- steps on one connection

  /** Allowed progress of one connection in one step; entering Closing is stamped
      with the number of polls completed. */
  predicate Advances(c: Conn, d: Conn, polls: nat) {
    if c.Closing? then d == c else Rank(c) <= Rank(d) && (d.Closing? ==> d.since == polls)
  }

  lemma ListenerStepKeeps(c: Conn, s: Socket, now: nat, polls: nat, plan: Endpoint -> Route)
    requires Consistent(c, s, polls)
    ensures var (d, t) := ListenerStep(c, s, now, polls, plan); Consistent(d, t, polls) && Advances(c, d, polls)
  {
  }

  lemma ConnectStepKeeps(c: Conn, s: Socket, answer: ConnectAnswer, polls: nat)
    requires Consistent(c, s, polls) && NewlyConnected(answer)
    ensures var (d, t) := ConnectStep(c, s, answer, polls); Consistent(d, t, polls) && Advances(c, d, polls)
  {
  }

  lemma ShuttleStepKeeps(c: Conn, s: Socket, io: Io, polls: nat)
    requires Consistent(c, s, polls)
    ensures var (d, t) := ShuttleStep(c, s, io, polls);
      && Consistent(d, t, polls) && Advances(c, d, polls)
      && (c.Established? && d.Established? ==> d.context.stream.Tunnel() == c.context.stream.Tunnel())
  {
    if c.Established? {
      PumpKeepsFlow(Link(c.context, s), io);
    }
  }

  lemma PollKeeps(c: Conn, s: Socket, t: Socket, polls: nat)
    requires Consistent(c, s, polls) && PollStep(s, t)
    ensures Consistent(c, t, polls + 1)
  {
    PollKeepsValid(s, t);
  }

  // ---------------------------------------------------------------- the whole table

  /** The three indexes agree: one endpoint key per handle and one handle per
      key, and the set of live keys is exactly the keys in use. */
  ghost predicate IndexInv(t: Table) {
    t.states.Keys == t.endpoint.Keys && Injective(t.endpoint) && t.live == t.endpoint.Values
  }

  ghost predicate TableInv(t: Table, socks: Socks, polls: nat) {
    && IndexInv(t)
    && t.states.Keys <= socks.Keys
    && forall h | h in t.states :: Consistent(t.states[h], socks[h], polls)
  }

  /** Nothing but the states of existing connections changed, and only forward. */
  ghost predicate OnlyAdvances(t: Table, u: Table, polls: nat) {
    && u.live == t.live && u.endpoint == t.endpoint && u.states.Keys == t.states.Keys
    && forall h | h in t.states :: Advances(t.states[h], u.states[h], polls)
  }

  lemma ObserveSynKeeps(t: Table, socks: Socks, syn: Syn, polls: nat)
    requires TableInv(t, socks, polls)
    ensures var (u, socks') := ObserveSyn(t, socks, syn);
      && TableInv(u, socks', polls)
      && t.live <= u.live && (syn.key.dstPort != 0 ==> syn.key in u.live)
      && Grows(t.states, socks, u.states, socks')
      && (forall h | h in u.states && h !in t.states ::
            && u.states[h] == Listening(syn.now) && u.endpoint[h] == syn.key
            && h in socks' && socks'[h] == ListenSocket(syn.key.dstPort))
      && (forall h | h in t.states :: u.endpoint[h] == t.endpoint[h])
  {
    ObserveSynIndexes(t, socks, syn);
    ObserveSynGrows(t, socks, syn);
  }

  lemma ObserveSynIndexes(t: Table, socks: Socks, syn: Syn)
    requires IndexInv(t) && t.states.Keys <= socks.Keys
    ensures IndexInv(ObserveSyn(t, socks, syn).0)
  {
    if syn.key !in t.live && syn.key.dstPort != 0 {
      InjectiveExtension(t.endpoint, FreshHandle(socks), syn.key);
    }
  }

  lemma ObserveSynGrows(t: Table, socks: Socks, syn: Syn)
    requires t.states.Keys == t.endpoint.Keys && t.states.Keys <= socks.Keys
    ensures var (u, socks') := ObserveSyn(t, socks, syn);
      && u.states.Keys == u.endpoint.Keys && u.states.Keys <= socks'.Keys
      && Grows(t.states, socks, u.states, socks')
      && t.live <= u.live && (syn.key.dstPort != 0 ==> syn.key in u.live)
      && (forall h | h in u.states && h !in t.states ::
            && u.states[h] == Listening(syn.now) && u.endpoint[h] == syn.key
            && h in socks' && socks'[h] == ListenSocket(syn.key.dstPort))
      && (forall h | h in t.states :: u.endpoint[h] == t.endpoint[h])
  {
  }

  lemma {:induction false} ObserveSynsKeeps(t: Table, socks: Socks, syns: seq<Syn>, polls: nat)
    requires TableInv(t, socks, polls)
    ensures var (u, socks') := ObserveSyns(t, socks, syns);
      && TableInv(u, socks', polls)
      && t.live <= u.live && (forall syn | syn in syns && syn.key.dstPort != 0 :: syn.key in u.live)
      && Grows(t.states, socks, u.states, socks')
      && (forall h | h in t.states :: u.endpoint[h] == t.endpoint[h])
      && (forall h | h in u.states && h !in t.states ::
            u.states[h].Listening? && h in socks' && socks'[h] == ListenSocket(u.endpoint[h].dstPort))
  {
    if syns != [] {
      var front := syns[..|syns| - 1];
      ObserveSynsKeeps(t, socks, front, polls);
      var (t1, socks1) := ObserveSyns(t, socks, front);
      ObserveSynKeeps(t1, socks1, syns[|syns| - 1], polls);
      var (u, socks') := ObserveSyn(t1, socks1, syns[|syns| - 1]);
      GrowsTwice(t.states, socks, t1.states, socks1, u.states, socks');
      assert syns == front + [syns[|syns| - 1]];
    }
  }

  /** Retransmitted SYNs are absorbed: observing the same packets again, at any
      later time, creates nothing. */
  lemma {:induction false} RepeatedSynsAddNothing(t: Table, socks: Socks, syns: seq<Syn>)
    requires forall syn | syn in syns && syn.key.dstPort != 0 :: syn.key in t.live
    ensures ObserveSyns(t, socks, syns) == (t, socks)
  {
    if syns != [] {
      RepeatedSynsAddNothing(t, socks, syns[..|syns| - 1]);
      assert syns[|syns| - 1] in syns;
    }
  }

  lemma UpdateListenersKeeps(t: Table, socks: Socks, now: nat, polls: nat, plan: Endpoint -> Route)
    requires TableInv(t, socks, polls)
    ensures var (u, socks') := UpdateListeners(t, socks, now, polls, plan);
      TableInv(u, socks', polls) && OnlyAdvances(t, u, polls)
  {
    forall h | h in t.states
      ensures var (d, s) := ListenerStep(t.states[h], socks[h], now, polls, plan);
        Consistent(d, s, polls) && Advances(t.states[h], d, polls)
    {
      ListenerStepKeeps(t.states[h], socks[h], now, polls, plan);
    }
  }

  lemma PollConnectingKeeps(t: Table, socks: Socks, connects: Handle -> ConnectAnswer, polls: nat)
    requires TableInv(t, socks, polls) && ConnectContract(connects)
    ensures var (u, socks') := PollConnecting(t, socks, connects, polls);
      TableInv(u, socks', polls) && OnlyAdvances(t, u, polls)
  {
    forall h | h in t.states
      ensures var (d, s) := ConnectStep(t.states[h], socks[h], connects(h), polls);
        Consistent(d, s, polls) && Advances(t.states[h], d, polls)
    {
      ConnectStepKeeps(t.states[h], socks[h], connects(h), polls);
    }
  }

  lemma ShuttleKeeps(t: Table, socks: Socks, ios: Handle -> Io, polls: nat)
    requires TableInv(t, socks, polls)
    ensures var (u, socks') := Shuttle(t, socks, ios, polls);
      TableInv(u, socks', polls) && OnlyAdvances(t, u, polls)
  {
    forall h | h in t.states
      ensures var (d, s) := ShuttleStep(t.states[h], socks[h], ios(h), polls);
        Consistent(d, s, polls) && Advances(t.states[h], d, polls)
    {
      ShuttleStepKeeps(t.states[h], socks[h], ios(h), polls);
    }
  }

  /** Cleanup removes exactly the closing connections, from all three indexes. */
  lemma CleanupKeeps(t: Table, socks: Socks, polls: nat)
    requires TableInv(t, socks, polls)
    ensures var (u, socks') := Cleanup(t, socks);
      && TableInv(u, socks', polls)
      && u.states.Keys == t.states.Keys - ClosingHandles(t)
      && ClosingHandles(u) == {}
      && (forall h | h in u.states :: u.states[h] == t.states[h] && u.endpoint[h] == t.endpoint[h])
      && u.live == set h | h in u.states :: u.endpoint[h]
  {
    var gone := ClosingHandles(t);
    InjectiveRemoval(t.endpoint, gone);
    var lost := set h | h in gone && h in t.endpoint :: t.endpoint[h];
    assert lost == set h | h in gone :: t.endpoint[h];
    var (u, _) := Cleanup(t, socks);
    assert u.endpoint.Values == set h | h in u.states :: u.endpoint[h];
  }

  lemma PollTableKeeps(t: Table, socks: Socks, net: Net, polls: nat)
    requires TableInv(t, socks, polls) && NetContract(net)
    ensures TableInv(t, PollAll(socks, net), polls + 1)
  {
    forall h | h in t.states
      ensures Consistent(t.states[h], net(h, socks[h]), polls + 1)
    {
      PollKeeps(t.states[h], socks[h], net(h, socks[h]), polls);
    }
  }
}

/** Two runs in which an outgoing connection closes and bytes are lost. */
module CloseLosses {
  import opened Common
  import opened Targets
  import opened Sockets
  import opened ProxyStreams
  import opened Engines
  import Out = Outbound
  import OutP = OutboundProofs
  import Pub = Published

  const KEY: Out.Key := Out.Key(0xC612_0002, 40000, 0xC612_0005, 80)
  const LOCAL: Endpoint := (KEY.dstIp, KEY.dstPort)
  const OPEN_SOCKET: Socket := Out.ListenSocket(80).(state := Established, local := Some(LOCAL))

  // ---------------------------------------------------------------- three ways the network may behave

  /** Handshakes complete. */
  function Accepting(): Net {
    (h: Handle, s: Socket) => if s.state.Listen? then s.(state := Established, local := Some(LOCAL)) else s
  }

  /** The application half-closes. */
  function HalfClosing(): Net {
    (h: Handle, s: Socket) => if s.state.Established? then s.(state := CloseWait) else s
  }

  /** The application sends one byte. */
  function Sending(): Net {
    (h: Handle, s: Socket) => if s.state.Established? && s.rx == [] then s.(rx := [7]) else s
  }

  lemma NetsAreAllowed()
    ensures NetContract(Accepting()) && NetContract(HalfClosing()) && NetContract(Sending())
  {
    forall h: Handle, s: Socket
      ensures PollStep(s, Accepting()(h, s)) && PollStep(s, HalfClosing()(h, s)) && PollStep(s, Sending()(h, s))
    {
      assert s.tx[..0] == [] && s.acked + [] == s.acked && s.tx[0..] == s.tx;
    }
  }

  // ---------------------------------------------------------------- one connection

  /** The engine with this connection only, in the given state. */
  function Alone(c: Out.Conn, s: Socket, polls: nat): Engine {
    Engine(Out.Table(map[1 := c], {KEY}, map[1 := KEY]), Pub.EMPTY, map[1 := s], polls)
  }

  function Handing(stream: ProxyStream): Handle -> Out.ConnectAnswer {
    (h: Handle) => Out.Connected(stream)
  }

  function Answering(io: Out.Io): Handle -> Out.Io {
    (h: Handle) => io
  }

  function Opening(stream: ProxyStream, plan: Endpoint -> Route): seq<Op> {
    [Observe([Out.Syn(KEY, 0)]), Poll(Accepting()), Listeners(0, plan), Connects(Handing(stream))]
  }

  function Forwarding(stream: ProxyStream): Out.Conn {
    Out.Conn.Established(Out.ForwardContext(stream, [], Out.Open))
  }

  function Opened(stream: ProxyStream): Engine {
    Alone(Forwarding(stream), OPEN_SOCKET, 1)
  }

  lemma ObservedAlone()
    ensures Apply(INITIAL, Observe([Out.Syn(KEY, 0)])) == Alone(Out.Listening(0), Out.ListenSocket(80), 0)
  {
    var syns := [Out.Syn(KEY, 0)];
    assert syns[..0] == [];
    assert Out.ObserveSyns(Out.EMPTY, map[], syns[..0]) == (Out.EMPTY, map[]);
    assert FreshHandle(map[]) == 1;
  }

  lemma PolledAlone(c: Out.Conn, s: Socket, polls: nat, net: Net)
    ensures Apply(Alone(c, s, polls), Poll(net)) == Alone(c, net(1, s), polls + 1)
  {
  }

  lemma ListenedAlone(plan: Endpoint -> Route)
    ensures Apply(Alone(Out.Listening(0), OPEN_SOCKET, 1), Listeners(0, plan))
         == Alone(Out.Connecting(plan(LOCAL)), OPEN_SOCKET, 1)
  {
  }

  lemma OpenedAlone(route: Route, stream: ProxyStream)
    ensures Apply(Alone(Out.Connecting(route), OPEN_SOCKET, 1), Connects(Handing(stream))) == Opened(stream)
  {
    assert Out.ConnectStep(Out.Connecting(route), OPEN_SOCKET, Handing(stream)(1), 1)
        == (Out.Conn.Established(Out.ForwardContext(stream, [], Out.Open)), OPEN_SOCKET);
  }

  lemma ForwardedAlone(c: Out.Conn, s: Socket, polls: nat, io: Out.Io)
    ensures var (d, t) := Out.ShuttleStep(c, s, io, polls);
      Apply(Alone(c, s, polls), ForwardOut(Answering(io))) == Alone(d, t, polls)
  {
  }

  // ---------------------------------------------------------------- the runs

  lemma RunOneMore(trace: seq<Engine>, ops: seq<Op>, op: Op) returns (longer: seq<Engine>)
    requires IsRun(trace, ops) && Allowed(op)
    ensures IsRun(longer, ops + [op]) && trace <= longer && longer[|ops| + 1] == Apply(trace[|ops|], op)
  {
    longer := trace + [Apply(trace[|ops|], op)];
    var more := ops + [op];
    forall i | 0 <= i < |more|
      ensures StepAt(longer, more, i)
    {
      if i < |ops| {
        assert StepAt(trace, ops, i);
      }
    }
  }

  lemma OpenedIsReachable(stream: ProxyStream, plan: Endpoint -> Route) returns (trace: seq<Engine>)
    requires stream.handed == [] && stream.written == []
    ensures IsRun(trace, Opening(stream, plan)) && trace[4] == Opened(stream)
  {
    var ops := Opening(stream, plan);
    trace := AcceptedIsReachable();
    ListenedAlone(plan);
    assert ops[..2] == [Observe([Out.Syn(KEY, 0)]), Poll(Accepting())];
    trace := RunOneMore(trace, ops[..2], ops[2]);
    assert ops[..2] + [ops[2]] == ops[..3];
    OpenedAlone(plan(LOCAL), stream);
    trace := RunOneMore(trace, ops[..3], ops[3]);
    assert ops[..3] + [ops[3]] == ops;
  }

  lemma AcceptedIsReachable() returns (trace: seq<Engine>)
    ensures IsRun(trace, [Observe([Out.Syn(KEY, 0)]), Poll(Accepting())])
    ensures trace[2] == Alone(Out.Listening(0), OPEN_SOCKET, 1)
  {
    NetsAreAllowed();
    ObservedAlone();
    trace := RunOneMore([INITIAL], [], Observe([Out.Syn(KEY, 0)]));
    PolledAlone(Out.Listening(0), Out.ListenSocket(80), 0, Accepting());
    trace := RunOneMore(trace, [Observe([Out.Syn(KEY, 0)])], Poll(Accepting()));
  }

  lemma PolledIsReachable(stream: ProxyStream, plan: Endpoint -> Route, net: Net) returns (trace: seq<Engine>)
    requires stream.handed == [] && stream.written == [] && NetContract(net)
    ensures IsRun(trace, Opening(stream, plan) + [Poll(net)])
    ensures trace[5] == Alone(Forwarding(stream), net(1, OPEN_SOCKET), 2)
  {
    trace := OpenedIsReachable(stream, plan);
    PolledAlone(Forwarding(stream), OPEN_SOCKET, 1, net);
    trace := RunOneMore(trace, Opening(stream, plan), Poll(net));
  }

  /** One more poll and one forwarding pass. */
  lemma ClosingRun(stream: ProxyStream, plan: Endpoint -> Route, net: Net, io: Out.Io) returns (trace: seq<Engine>)
    requires stream.handed == [] && stream.written == [] && NetContract(net)
    ensures IsRun(trace, Opening(stream, plan) + [Poll(net)] + [ForwardOut(Answering(io))])
    ensures trace[5] == Alone(Forwarding(stream), net(1, OPEN_SOCKET), 2)
    ensures var (d, t) := Out.ShuttleStep(Forwarding(stream), net(1, OPEN_SOCKET), io, 2); trace[6] == Alone(d, t, 2)
  {
    var polled := PolledIsReachable(stream, plan, net);
    ForwardedAlone(Forwarding(stream), net(1, OPEN_SOCKET), 2, io);
    trace := RunOneMore(polled, Opening(stream, plan) + [Poll(net)], ForwardOut(Answering(io)));
    assert trace[5] == polled[5];
  }

  /** Upstream has one byte to say; the application half-closes before it is read.
      Whatever the next pass is answered, the connection closes and the application
      never gets the byte. */
  lemma HalfCloseLosesByte(plan: Endpoint -> Route, io: Out.Io) returns (trace: seq<Engine>)
    ensures var stream := NewStream(Tcp([7]), []);
      && IsRun(trace, Opening(stream, plan) + [Poll(HalfClosing())] + [ForwardOut(Answering(io))])
      && stream.Remaining() == [7]
    ensures trace[6].outgoing.states.Keys == trace[6].socks.Keys == {1}
    ensures trace[6].outgoing.states[1].Closing? && trace[6].socks[1].acked == []
  {
    var stream := NewStream(Tcp([7]), []);
    NetsAreAllowed();
    trace := ClosingRun(stream, plan, HalfClosing(), io);
    var c, s := Out.ForwardContext(stream, [], Out.Open), HalfClosing()(1, OPEN_SOCKET);
    OutP.HalfClosedConnectionCloses(c, s, io, 2);
    OutP.PumpKeepsFlow(Out.Link(c, s), io);
  }

  /** Upstream has ended; the application sends a byte on the open connection and
      the upstream socket is not writable. The connection closes and upstream never
      gets the byte. */
  lemma CloseDropsUnsentByte(plan: Endpoint -> Route) returns (trace: seq<Engine>)
    ensures var stream, io := NewStream(Tcp([]), []), Out.Io(WriteBlock, Avail(0), Accept(0));
      IsRun(trace, Opening(stream, plan) + [Poll(Sending())] + [ForwardOut(Answering(io))])
    ensures trace[6].outgoing.states.Keys == trace[6].socks.Keys == {1}
    ensures trace[6].outgoing.states[1].Closing?
    ensures trace[6].socks[1].Received() == [7] && trace[6].socks[1].taken == []
  {
    var stream, io := NewStream(Tcp([]), []), Out.Io(WriteBlock, Avail(0), Accept(0));
    NetsAreAllowed();
    trace := ClosingRun(stream, plan, Sending(), io);
    var c, s := Out.ForwardContext(stream, [], Out.Open), Sending()(1, OPEN_SOCKET);
    assert stream.Remaining() == [];
    OutP.OpenConnectionClosesOnlyDrained(c, s, io, 2);
    OutP.PumpKeepsFlow(Out.Link(c, s), io);
    OutP.FillAndPushLeaveQueue(Out.Link(c, s), io.read, io.send);
  }
}

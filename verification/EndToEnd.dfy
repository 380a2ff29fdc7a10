/** The byte stream an application receives, from the proxy's reply to its ACKs. */
module EndToEnd {
  import opened Common
  import opened Sockets
  import opened ProxyStreams
  import opened Engines
  import opened Steps
  import Out = Outbound
  import OutP = OutboundProofs
  import Http = HttpConnect
  import Socks5
  import Pub = Published
  import PubP = PublishedProofs
  import Routing
  import Rules
  import FakeDnsPool
  import Targets

  /** The forwarding state of an outgoing connection, if it has one. */
  predicate Forwarding(e: Engine, h: Handle) {
    h in e.outgoing.states && e.outgoing.states[h].Established?
  }

  function ContextOf(e: Engine, h: Handle): Out.ForwardContext
    requires Forwarding(e, h)
  {
    e.outgoing.states[h].context
  }

  lemma TunnelKept(e: Engine, op: Op, h: Handle)
    requires EngineInv(e) && Allowed(op) && Forwarding(e, h) && Forwarding(Apply(e, op), h)
    ensures ContextOf(Apply(e, op), h).stream.Tunnel() == ContextOf(e, h).stream.Tunnel()
  {
    OutUnder(e, op, h);
    if op.ForwardOut? {
      OutP.ShuttleStepKeeps(e.outgoing.states[h], e.socks[h], op.outIos(h), e.polls);
    }
  }

  lemma TunnelKeptAt(trace: seq<Engine>, ops: seq<Op>, k: nat, h: Handle)
    requires IsRun(trace, ops) && k < |ops| && Forwarding(trace[k], h) && Forwarding(trace[k + 1], h)
    ensures ContextOf(trace[k + 1], h).stream.Tunnel() == ContextOf(trace[k], h).stream.Tunnel()
  {
    RunsStayConsistent(trace, ops, k);
    assert StepAt(trace, ops, k);
    TunnelKept(trace[k], ops[k], h);
  }

  lemma {:induction false} TunnelKeptOverRun(trace: seq<Engine>, ops: seq<Op>, j: nat, i: nat, h: Handle)
    requires IsRun(trace, ops) && j <= i <= |ops|
    requires forall k | j <= k <= i :: Forwarding(trace[k], h)
    ensures ContextOf(trace[i], h).stream.Tunnel() == ContextOf(trace[j], h).stream.Tunnel()
  {
    if j < i {
      TunnelKeptOverRun(trace, ops, j, i - 1, h);
      assert Forwarding(trace[i - 1], h) && Forwarding(trace[i], h);
      TunnelKeptAt(trace, ops, i - 1, h);
    }
  }

  /** In every run: from the moment a connection receives its upstream stream and
      for as long as it forwards, the bytes its socket accepted, then the buffer,
      then what is still unread are exactly the stream it was given; the buffer is
      bounded; and the bytes taken from the application are those written upstream. */
  lemma StreamOrder(trace: seq<Engine>, ops: seq<Op>, j: nat, i: nat, h: Handle, stream: ProxyStream)
    requires IsRun(trace, ops) && j < i <= |ops|
    requires ops[j].Connects? && ops[j].connects(h) == Out.Connected(stream)
    requires h in trace[j].outgoing.states && trace[j].outgoing.states[h].Connecting?
    requires forall k | j < k <= i :: Forwarding(trace[k], h)
    ensures h in trace[i].socks
    ensures var c, s := ContextOf(trace[i], h), trace[i].socks[h];
      && s.accepted + c.proxyToApp + c.stream.Remaining() == stream.Remaining()
      && |c.proxyToApp| <= TCP_BUF_SIZE
      && s.taken == c.stream.written
  {
    InstalledAt(trace, ops, j, h, stream);
    TunnelKeptOverRun(trace, ops, j + 1, i, h);
    RunsStayConsistent(trace, ops, i);
    assert Forwarding(trace[i], h);
    WhereBytesAre(trace[i], h);
  }

  lemma WhereBytesAre(e: Engine, h: Handle)
    requires EngineInv(e) && Forwarding(e, h)
    ensures h in e.socks
    ensures var c, s := ContextOf(e, h), e.socks[h];
      && s.accepted + c.proxyToApp + c.stream.Remaining() == c.stream.Tunnel()
      && |c.proxyToApp| <= TCP_BUF_SIZE
      && s.taken == c.stream.written
  {
    assert OutP.Flow(ContextOf(e, h), e.socks[h]);
  }

  lemma InstalledAt(trace: seq<Engine>, ops: seq<Op>, j: nat, h: Handle, stream: ProxyStream)
    requires IsRun(trace, ops) && j < |ops|
    requires ops[j].Connects? && ops[j].connects(h) == Out.Connected(stream)
    requires h in trace[j].outgoing.states && trace[j].outgoing.states[h].Connecting?
    ensures Forwarding(trace[j + 1], h) && ContextOf(trace[j + 1], h).stream.Tunnel() == stream.Remaining()
  {
    RunsStayConsistent(trace, ops, j);
    assert StepAt(trace, ops, j);
    Installed(trace[j], ops[j].connects, h, stream);
  }

  lemma Installed(e: Engine, connects: Handle -> Out.ConnectAnswer, h: Handle, stream: ProxyStream)
    requires EngineInv(e) && Out.ConnectContract(connects) && connects(h) == Out.Connected(stream)
    requires h in e.outgoing.states && e.outgoing.states[h].Connecting?
    ensures Forwarding(Apply(e, Connects(connects)), h)
    ensures ContextOf(Apply(e, Connects(connects)), h).stream.Tunnel() == stream.Remaining()
  {
    OutUnder(e, Connects(connects), h);
    assert Out.NewlyConnected(connects(h));
    assert stream.Tunnel() == [] + stream.Remaining();
  }

  /** Every forwarding connection of every run has such a beginning: a SYN put it in
      a fresh slot, a listener pass found its socket connected and started the
      connect that the plan names for its local endpoint, and a finished connect
      handed over the stream it has forwarded ever since. */
  lemma Origin(trace: seq<Engine>, ops: seq<Op>, i: nat, h: Handle) returns (a: nat, b: nat, c: nat)
    requires IsRun(trace, ops) && i <= |ops| && Forwarding(trace[i], h)
    ensures a < b < c < i
    ensures ops[a].Observe? && h !in trace[a].socks
    ensures ops[b].Listeners? && h in trace[b].socks && trace[b].socks[h].Connected() && trace[b].socks[h].local.Some?
    ensures h in trace[c].outgoing.states
    ensures trace[c].outgoing.states[h] == Out.Connecting(ops[b].plan(trace[b].socks[h].local.value))
    ensures ops[c].Connects? && ops[c].connects(h).Connected?
    ensures forall k | a < k <= i :: h in trace[k].outgoing.states
    ensures forall k | c < k <= i :: Forwarding(trace[k], h)
  {
    c := ForwardingSince(trace, ops, i, h);
    b := ConnectingSince(trace, ops, c, h);
    a := ListeningSince(trace, ops, b, h);
  }

  /** What put a connection where it is in f, if it was elsewhere in e. */
  ghost predicate Entered(e: Engine, op: Op, f: Engine, h: Handle)
    requires h in f.outgoing.states
  {
    var was, now := e.outgoing.states, f.outgoing.states[h];
    if h !in was then op.Observe? && h !in e.socks && now.Listening?
    else if now.Listening? then was[h].Listening?
    else if now.Connecting? then
      || was[h] == now
      || (was[h].Listening? && op.Listeners? && h in e.socks && e.socks[h].Connected() && e.socks[h].local.Some?
          && now == Out.Connecting(op.plan(e.socks[h].local.value)))
    else
      now.Established? ==> was[h].Established? || (was[h].Connecting? && op.Connects? && op.connects(h).Connected?)
  }

  lemma EnteredAt(trace: seq<Engine>, ops: seq<Op>, k: nat, h: Handle)
    requires IsRun(trace, ops) && k < |ops| && h in trace[k + 1].outgoing.states
    ensures Entered(trace[k], ops[k], trace[k + 1], h)
  {
    if h in trace[k].outgoing.states {
      OutUnderAt(trace, ops, k, h);
    } else {
      RunsProgress(trace, ops, k);
    }
  }

  lemma {:induction false} ForwardingSince(trace: seq<Engine>, ops: seq<Op>, i: nat, h: Handle) returns (c: nat)
    requires IsRun(trace, ops) && i <= |ops| && Forwarding(trace[i], h)
    ensures c < i && h in trace[c].outgoing.states && trace[c].outgoing.states[h].Connecting?
    ensures ops[c].Connects? && ops[c].connects(h).Connected?
    ensures forall k | c < k <= i :: Forwarding(trace[k], h)
  {
    EnteredAt(trace, ops, i - 1, h);
    if Forwarding(trace[i - 1], h) {
      c := ForwardingSince(trace, ops, i - 1, h);
    } else {
      c := i - 1;
    }
  }

  lemma {:induction false} ConnectingSince(trace: seq<Engine>, ops: seq<Op>, i: nat, h: Handle) returns (b: nat)
    requires IsRun(trace, ops) && i <= |ops| && h in trace[i].outgoing.states && trace[i].outgoing.states[h].Connecting?
    ensures b < i && h in trace[b].outgoing.states && trace[b].outgoing.states[h].Listening?
    ensures ops[b].Listeners? && h in trace[b].socks && trace[b].socks[h].Connected() && trace[b].socks[h].local.Some?
    ensures trace[i].outgoing.states[h] == Out.Connecting(ops[b].plan(trace[b].socks[h].local.value))
    ensures forall k | b < k <= i :: h in trace[k].outgoing.states
  {
    EnteredAt(trace, ops, i - 1, h);
    if trace[i - 1].outgoing.states[h].Connecting? {
      b := ConnectingSince(trace, ops, i - 1, h);
    } else {
      b := i - 1;
    }
  }

  lemma {:induction false} ListeningSince(trace: seq<Engine>, ops: seq<Op>, i: nat, h: Handle) returns (a: nat)
    requires IsRun(trace, ops) && i <= |ops| && h in trace[i].outgoing.states && trace[i].outgoing.states[h].Listening?
    ensures a < i && ops[a].Observe? && h !in trace[a].socks
    ensures forall k | a < k <= i :: h in trace[k].outgoing.states
  {
    EnteredAt(trace, ops, i - 1, h);
    if h in trace[i - 1].outgoing.states {
      a := ListeningSince(trace, ops, i - 1, h);
    } else {
      a := i - 1;
    }
  }

  /** Through an HTTP proxy: when the upstream stream came out of a CONNECT, its
      reply was a 200 status line, header lines and their end; and what the
      application has accepted, what waits for it and what is unread are exactly
      the bytes behind that end, however the reply was cut into reads. */
  lemma HttpStreamOrder(trace: seq<Engine>, ops: seq<Op>, j: nat, i: nat, h: Handle, stream: ProxyStream,
                        reply: seq<byte>, utf8: Http.Utf8)
    returns (status: seq<byte>, lines: seq<seq<byte>>, last: seq<byte>, tunnel: seq<byte>)
    requires IsRun(trace, ops) && j < i <= |ops|
    requires ops[j].Connects? && ops[j].connects(h) == Out.Connected(stream)
    requires h in trace[j].outgoing.states && trace[j].outgoing.states[h].Connecting?
    requires forall k | j < k <= i :: Forwarding(trace[k], h)
    requires Http.Judge(reply, utf8) == Http.Tunnel(stream.Remaining())
    ensures Http.Positive(reply, status, lines, last, tunnel, utf8)
    ensures h in trace[i].socks
    ensures var c := ContextOf(trace[i], h);
      trace[i].socks[h].accepted + c.proxyToApp + c.stream.Remaining() == tunnel
  {
    status, lines, last := Http.OnlyPositiveRepliesTunnel(reply, utf8);
    tunnel := stream.Remaining();
    StreamOrder(trace, ops, j, i, h, stream);
  }

  /** Through a SOCKS5 proxy: when the upstream stream is what a successful handshake
      left unread, those bytes are exactly the server's bytes behind the handshake. */
  lemma SocksStreamOrder(trace: seq<Engine>, ops: seq<Op>, j: nat, i: nat, h: Handle,
                         server: seq<byte>, auth: Option<Targets.Credentials>)
    requires IsRun(trace, ops) && j < i <= |ops|
    requires Socks5.HandshakeEnd(server, auth).Some?
    requires Socks5.HandshakeEnd(server, auth).value <= |server|
    requires ops[j].Connects? && ops[j].connects(h)
          == Out.Connected(NewStream(Tcp(server[Socks5.HandshakeEnd(server, auth).value..]), []))
    requires h in trace[j].outgoing.states && trace[j].outgoing.states[h].Connecting?
    requires forall k | j < k <= i :: Forwarding(trace[k], h)
    ensures h in trace[i].socks
    ensures var c := ContextOf(trace[i], h);
      trace[i].socks[h].accepted + c.proxyToApp + c.stream.Remaining()
      == server[Socks5.HandshakeEnd(server, auth).value..]
  {
    var stream := NewStream(Tcp(server[Socks5.HandshakeEnd(server, auth).value..]), []);
    StreamOrder(trace, ops, j, i, h, stream);
    assert stream.Remaining() == server[Socks5.HandshakeEnd(server, auth).value..];
  }

  /** In every run, when a forwarding pass closes a connected socket: the application
      has acknowledged the whole stream it was given exactly if nothing was on the
      way back, and upstream was given all it sent exactly if this pass took the
      rest. */
  lemma OutboundCloseDelivers(trace: seq<Engine>, ops: seq<Op>, i: nat, h: Handle)
    requires IsRun(trace, ops) && i < |ops| && ops[i].ForwardOut? && Forwarding(trace[i], h)
    requires h in trace[i].socks && trace[i].socks[h].Connected()
    requires h in trace[i + 1].outgoing.states && trace[i + 1].outgoing.states[h].Closing?
    ensures h in trace[i + 1].socks
    ensures var c, s, t := ContextOf(trace[i], h), trace[i].socks[h], trace[i + 1].socks[h];
      && (t.acked == c.stream.Tunnel() <==> s.tx == [] && c.proxyToApp == [] && c.stream.Remaining() == [])
      && (t.taken == s.Received() <==> OutP.TakesAll(s, ops[i].outIos(h).write))
  {
    OutUnderAt(trace, ops, i, h);
    OutP.CloseDelivers(ContextOf(trace[i], h), trace[i].socks[h], ops[i].outIos(h), trace[i].polls);
  }

  /** From the DNS answer to the connect task: a connection accepted at an address
      that was answered for a name, with fewer than POOL_SIZE names allocated since,
      starts a task for that name through the route of its first matching rule. */
  lemma ConnectsToName(e: Engine, now: nat, h: Handle, log: FakeDnsPool.Log, i: nat, later: seq<seq<byte>>,
                       utf8: Http.Utf8, port: Targets.u16, specs: seq<Rules.RuleSpec>,
                       fallback: Targets.ProxyConfig, engine: Rules.Engine)
    requires Keyed(e) && h in e.outgoing.states && e.outgoing.states[h].Listening?
    requires e.socks[h].Connected() && e.socks[h].local == Some((FakeDnsPool.Address(i), port))
    requires FakeDnsPool.Good(log) && FakeDnsPool.Live(log, i) && Rules.Accepted(specs)
    requires |FakeDnsPool.ResolveAll(log, Routing.NamesAsked(later, utf8))| - i <= FakeDnsPool.POOL_SIZE
    ensures var after := FakeDnsPool.ResolveAll(log, Routing.NamesAsked(later, utf8));
      var f := Apply(e, Listeners(now, Routing.Plan(after, specs, fallback, engine)));
      && h in f.outgoing.states && f.outgoing.states[h].Connecting?
      && f.outgoing.states[h].route.target == Targets.Domain(log[i], port)
      && f.outgoing.states[h].route.proxy ==
         (match Rules.DomainRoute(Rules.DomainRules(specs), engine, log[i]) case Some(p) => p case None => fallback)
  {
    var after := FakeDnsPool.ResolveAll(log, Routing.NamesAsked(later, utf8));
    TaskStarts(e, now, Routing.Plan(after, specs, fallback, engine), h);
    Routing.ConnectionFollowsAnswer(log, i, later, utf8, port, specs, fallback, engine);
  }

  /** A listener pass starts the connect that the plan names. */
  lemma TaskStarts(e: Engine, now: nat, plan: Endpoint -> Targets.Route, h: Handle)
    requires Keyed(e) && h in e.outgoing.states && e.outgoing.states[h].Listening?
    requires e.socks[h].Connected() && e.socks[h].local.Some?
    ensures var f := Apply(e, Listeners(now, plan));
      h in f.outgoing.states && f.outgoing.states[h] == Out.Connecting(plan(e.socks[h].local.value))
  {
  }

  predicate Serving(e: Engine, h: Handle) {
    h in e.published.states && e.published.states[h].Established?
  }

  /** Every forwarding published connection of every run was attached in a fresh
      slot and began to forward when a handshake pass found its socket connected. */
  lemma PublishedOrigin(trace: seq<Engine>, ops: seq<Op>, i: nat, h: Handle) returns (a: nat, b: nat)
    requires IsRun(trace, ops) && i <= |ops| && Serving(trace[i], h)
    ensures a < b < i && ops[a].Attach? && h !in trace[a].socks
    ensures ops[b].Handshakes? && h in trace[b].socks && trace[b].socks[h].Connected()
    ensures forall k | a < k <= i :: h in trace[k].published.states
    ensures forall k | b < k <= i :: Serving(trace[k], h)
  {
    b := ServingSince(trace, ops, i, h);
    a := AttachedSince(trace, ops, b, h);
  }

  /** Only a handshake pass over a connected socket starts forwarding. */
  ghost predicate StartedBy(e: Engine, op: Op, f: Engine, h: Handle) {
    h in e.published.states && Serving(f, h) && !Serving(e, h) ==>
      && e.published.states[h].Connecting? && op.Handshakes?
      && h in e.socks && e.socks[h].Connected()
  }

  lemma StartedAt(trace: seq<Engine>, ops: seq<Op>, k: nat, h: Handle)
    requires IsRun(trace, ops) && k < |ops|
    ensures StartedBy(trace[k], ops[k], trace[k + 1], h)
  {
    if h in trace[k].published.states {
      InUnderAt(trace, ops, k, h);
    }
  }

  lemma {:induction false} ServingSince(trace: seq<Engine>, ops: seq<Op>, i: nat, h: Handle) returns (b: nat)
    requires IsRun(trace, ops) && i <= |ops| && Serving(trace[i], h)
    ensures b < i && h in trace[b].published.states
    ensures ops[b].Handshakes? && h in trace[b].socks && trace[b].socks[h].Connected()
    ensures forall k | b < k <= i :: Serving(trace[k], h)
  {
    RunsProgress(trace, ops, i - 1);
    StartedAt(trace, ops, i - 1, h);
    if Serving(trace[i - 1], h) {
      b := ServingSince(trace, ops, i - 1, h);
    } else {
      b := i - 1;
    }
  }

  lemma {:induction false} AttachedSince(trace: seq<Engine>, ops: seq<Op>, i: nat, h: Handle) returns (a: nat)
    requires IsRun(trace, ops) && i <= |ops| && h in trace[i].published.states
    ensures a < i && ops[a].Attach? && h !in trace[a].socks
    ensures forall k | a < k <= i :: h in trace[k].published.states
  {
    RunsProgress(trace, ops, i - 1);
    if h in trace[i - 1].published.states {
      a := AttachedSince(trace, ops, i - 1, h);
    } else {
      a := i - 1;
    }
  }

  /** The outcome of one pass over a published connection, before it is judged. */
  function PumpedAt(e: Engine, h: Handle, io: Pub.Io): Pub.Link
    requires Serving(e, h) && h in e.socks
  {
    Pub.Pump(Pub.Link(e.published.states[h].context, e.socks[h], false), io)
  }

  /** In every run: when a published connection closes without a failure and its
      namespace socket had not closed by itself, the namespace has acknowledged
      every byte read from the host, and the host has been given every byte the
      namespace sent. */
  lemma PublishedClosesComplete(trace: seq<Engine>, ops: seq<Op>, i: nat, h: Handle)
    requires IsRun(trace, ops) && i < |ops| && ops[i].ForwardIn?
    requires h in trace[i].published.states && trace[i].published.states[h].Established?
    requires h in trace[i + 1].published.states && trace[i + 1].published.states[h].Closing?
    requires h in trace[i].socks && !trace[i].socks[h].Dead()
    requires !PumpedAt(trace[i], h, ops[i].pubIos(h)).failed
    ensures var l := PumpedAt(trace[i], h, ops[i].pubIos(h));
      && h in trace[i + 1].socks && trace[i + 1].socks[h] == l.socket.Abort()
      && l.context.host.read == l.socket.acked && l.context.host.written == l.socket.Received()
  {
    InUnderAt(trace, ops, i, h);
    var c, s, io := trace[i].published.states[h].context, trace[i].socks[h], ops[i].pubIos(h);
    PubP.PumpKeepsFlow(Pub.Link(c, s, false), io);
    PubP.GracefulCloseIsComplete(c, s, io, trace[i].polls);
  }
}

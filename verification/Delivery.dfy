/**
 * Bytes arrive: in every run, once the kernel and the network have let enough
 * passes through, everything that was to be forwarded has been.
 */
module Delivery {
  import opened Common
  import opened Targets
  import opened Sockets
  import opened ProxyStreams
  import opened Engines
  import opened Steps
  import opened EndToEnd
  import Out = Outbound
  import OutP = OutboundProofs
  import Pub = Published
  import PubP = PublishedProofs

  lemma LongPrefix(a: seq<byte>, b: seq<byte>, all: seq<byte>)
    requires a <= all && b <= all && |a| <= |b|
    ensures a <= b
  {
  }

  // ---------------------------------------------------------------- from upstream to the application

  lemma PumpGrows(l: Out.Link, io: Out.Io)
    ensures l.socket.accepted <= Out.Pump(l, io).socket.accepted && l.socket.taken <= Out.Pump(l, io).socket.taken
  {
    var l1 := Out.Uplink(l, io.write);
    var l2 := Out.Fill(l1, io.read);
    assert l2.socket.accepted == l.socket.accepted && l.socket.taken <= l1.socket.taken == l2.socket.taken;
  }

  /** A connection that forwards before and after an operation. */
  ghost predicate Forwards(trace: seq<Engine>, ops: seq<Op>, k: nat, h: Handle) {
    IsRun(trace, ops) && k < |ops| && Forwarding(trace[k], h) && Forwarding(trace[k + 1], h)
  }

  lemma PassOf(trace: seq<Engine>, ops: seq<Op>, k: nat, h: Handle)
    requires Forwards(trace, ops, k, h)
    ensures h in trace[k].socks && h in trace[k + 1].socks
    ensures OutP.Flow(ContextOf(trace[k], h), trace[k].socks[h]) && trace[k].socks[h].Valid()
    ensures ops[k].ForwardOut? ==>
      trace[k + 1].socks[h] == Out.Pump(Out.Link(ContextOf(trace[k], h), trace[k].socks[h]), ops[k].outIos(h)).socket
    ensures ops[k].Poll? ==> PollStep(trace[k].socks[h], trace[k + 1].socks[h])
    ensures !ops[k].ForwardOut? && !ops[k].Poll? ==> trace[k + 1].socks[h] == trace[k].socks[h]
  {
    OutUnderAt(trace, ops, k, h);
    if ops[k].Poll? {
      assert StepAt(trace, ops, k);
      assert PollStep(trace[k].socks[h], ops[k].net(h, trace[k].socks[h]));
    }
  }

  lemma PollReceives(s: Socket, t: Socket)
    requires PollStep(s, t)
    ensures s.accepted == t.accepted && s.taken == t.taken && (s.Connected() ==> s.Received() <= t.Received())
  {
  }

  /** Nothing that was accepted or taken is taken back, nor, while the connection
      lives, anything received. */
  lemma HistoriesGrow(trace: seq<Engine>, ops: seq<Op>, k: nat, h: Handle)
    requires Forwards(trace, ops, k, h)
    ensures h in trace[k].socks && h in trace[k + 1].socks
    ensures var s, t := trace[k].socks[h], trace[k + 1].socks[h];
      s.accepted <= t.accepted && s.taken <= t.taken && (s.Connected() ==> s.Received() <= t.Received())
  {
    PassOf(trace, ops, k, h);
    var s := trace[k].socks[h];
    if ops[k].ForwardOut? {
      var l := Out.Link(ContextOf(trace[k], h), s);
      PumpGrows(l, ops[k].outIos(h));
      OutP.PumpKeepsFlow(l, ops[k].outIos(h));
    } else if ops[k].Poll? {
      PollReceives(s, trace[k + 1].socks[h]);
    }
  }

  /** A pass that lets a byte through to the application. */
  ghost predicate LetsThrough(trace: seq<Engine>, ops: seq<Op>, k: nat, h: Handle)
    requires IsRun(trace, ops) && k < |ops|
  {
    ops[k].ForwardOut? && h in trace[k].socks && OutP.Generous(trace[k].socks[h], ops[k].outIos(h))
  }

  lemma LetsThroughDelivers(trace: seq<Engine>, ops: seq<Op>, k: nat, h: Handle)
    requires Forwards(trace, ops, k, h) && LetsThrough(trace, ops, k, h)
    ensures h in trace[k + 1].socks
    ensures var s := trace[k].socks[h];
      |s.accepted| >= |ContextOf(trace[k], h).stream.Tunnel()| || |s.accepted| < |trace[k + 1].socks[h].accepted|
  {
    PassOf(trace, ops, k, h);
    var c, s := ContextOf(trace[k], h), trace[k].socks[h];
    if s.accepted != c.stream.Tunnel() {
      OutP.GenerousPassDelivers(c, s, ops[k].outIos(h));
    }
  }

  /** What the socket of a connection has accepted. */
  function AcceptedBy(e: Engine, h: Handle): seq<byte> {
    if h in e.socks then e.socks[h].accepted else []
  }

  /** How many passes of a stretch let a byte through. */
  ghost function LetThroughs(trace: seq<Engine>, ops: seq<Op>, j: nat, i: nat, h: Handle): nat
    requires IsRun(trace, ops) && j <= i <= |ops|
  {
    if j == i then 0 else
      LetThroughs(trace, ops, j, i - 1, h) + if LetsThrough(trace, ops, i - 1, h) then 1 else 0
  }

  ghost predicate ForwardsOver(trace: seq<Engine>, ops: seq<Op>, j: nat, i: nat, h: Handle) {
    IsRun(trace, ops) && j <= i <= |ops| && forall k | j <= k <= i :: Forwarding(trace[k], h)
  }

  lemma DeliveryStep(trace: seq<Engine>, ops: seq<Op>, j: nat, k: nat, h: Handle)
    requires j <= k && ForwardsOver(trace, ops, j, k + 1, h)
    ensures var before, after := |AcceptedBy(trace[k], h)|, |AcceptedBy(trace[k + 1], h)|;
      && before <= after
      && (LetsThrough(trace, ops, k, h) ==> before >= |ContextOf(trace[j], h).stream.Tunnel()| || before < after)
  {
    assert Forwarding(trace[k], h) && Forwarding(trace[k + 1], h);
    HistoriesGrow(trace, ops, k, h);
    if LetsThrough(trace, ops, k, h) {
      LetsThroughDelivers(trace, ops, k, h);
      TunnelKeptOverRun(trace, ops, j, k, h);
    }
  }

  lemma {:induction false} DeliveredCount(trace: seq<Engine>, ops: seq<Op>, j: nat, i: nat, h: Handle)
    requires ForwardsOver(trace, ops, j, i, h)
    ensures |AcceptedBy(trace[i], h)|
         >= Min(|ContextOf(trace[j], h).stream.Tunnel()|, LetThroughs(trace, ops, j, i, h))
    decreases i
  {
    if j < i {
      DeliveredCount(trace, ops, j, i - 1, h);
      DeliveryStep(trace, ops, j, i - 1, h);
    }
  }

  lemma WholePrefix(a: seq<byte>, b: seq<byte>, c: seq<byte>, all: seq<byte>)
    requires a + b + c == all && |a| >= |all|
    ensures a == all
  {
    assert b == [] && c == [];
  }

  /** In every run: once as many passes have let a byte through as the upstream
      stream has bytes, the application's socket has accepted the whole stream. */
  lemma EverythingIsDelivered(trace: seq<Engine>, ops: seq<Op>, j: nat, i: nat, h: Handle, stream: ProxyStream)
    requires j < i && ForwardsOver(trace, ops, j + 1, i, h)
    requires ops[j].Connects? && ops[j].connects(h) == Out.Connected(stream)
    requires h in trace[j].outgoing.states && trace[j].outgoing.states[h].Connecting?
    requires LetThroughs(trace, ops, j + 1, i, h) >= |stream.Remaining()|
    ensures AcceptedBy(trace[i], h) == stream.Remaining()
  {
    InstalledAt(trace, ops, j, h, stream);
    DeliveredCount(trace, ops, j + 1, i, h);
    AcceptedIsPrefix(trace, ops, j, i, h, stream);
  }

  lemma AcceptedIsPrefix(trace: seq<Engine>, ops: seq<Op>, j: nat, i: nat, h: Handle, stream: ProxyStream)
    requires j < i && ForwardsOver(trace, ops, j + 1, i, h)
    requires ops[j].Connects? && ops[j].connects(h) == Out.Connected(stream)
    requires h in trace[j].outgoing.states && trace[j].outgoing.states[h].Connecting?
    ensures |AcceptedBy(trace[i], h)| >= |stream.Remaining()| ==> AcceptedBy(trace[i], h) == stream.Remaining()
  {
    StreamOrder(trace, ops, j, i, h, stream);
    var c := ContextOf(trace[i], h);
    if |AcceptedBy(trace[i], h)| >= |stream.Remaining()| {
      WholePrefix(AcceptedBy(trace[i], h), c.proxyToApp, c.stream.Remaining(), stream.Remaining());
    }
  }

  lemma InSocks(trace: seq<Engine>, ops: seq<Op>, k: nat, h: Handle)
    requires IsRun(trace, ops) && k <= |ops| && Forwarding(trace[k], h)
    ensures h in trace[k].socks
    ensures OutP.Flow(ContextOf(trace[k], h), trace[k].socks[h])
  {
    RunsStayConsistent(trace, ops, k);
    assert OutP.Consistent(trace[k].outgoing.states[h], trace[k].socks[h], trace[k].polls);
  }

  // ---------------------------------------------------------------- from the application to upstream

  /** A pass in which upstream takes at least one byte if there is one. */
  ghost predicate Writes(trace: seq<Engine>, ops: seq<Op>, k: nat, h: Handle)
    requires IsRun(trace, ops) && k < |ops|
  {
    && ops[k].ForwardOut? && OutP.Faultless(ops[k].outIos(h))
    && ops[k].outIos(h).write.Wrote? && ops[k].outIos(h).write.n > 0
  }

  lemma WritesTakes(trace: seq<Engine>, ops: seq<Op>, k: nat, h: Handle)
    requires Forwards(trace, ops, k, h) && Writes(trace, ops, k, h)
    requires h in trace[k].socks && trace[k].socks[h].Connected()
    ensures h in trace[k + 1].socks
    ensures trace[k].socks[h].rx == [] || |trace[k].socks[h].taken| < |trace[k + 1].socks[h].taken|
  {
    PassOf(trace, ops, k, h);
    var got := OutP.PassMoves(ContextOf(trace[k], h), trace[k].socks[h], ops[k].outIos(h));
  }

  lemma {:induction false} ReceivedStays(trace: seq<Engine>, ops: seq<Op>, j: nat, i: nat, h: Handle)
    requires IsRun(trace, ops) && j <= i <= |ops|
    requires forall k | j <= k <= i :: Forwarding(trace[k], h) && h in trace[k].socks
    requires forall k | j <= k < i :: trace[k].socks[h].Connected()
    ensures trace[j].socks[h].Received() <= trace[i].socks[h].Received()
  {
    if j < i {
      ReceivedStays(trace, ops, j, i - 1, h);
      assert Forwarding(trace[i - 1], h) && Forwarding(trace[i], h);
      HistoriesGrow(trace, ops, i - 1, h);
    }
  }

  /** What a connection has written upstream is what it took from its socket. */
  function TakenBy(e: Engine, h: Handle): seq<byte> {
    if h in e.socks then e.socks[h].taken else []
  }

  /** A connection that forwards over a stretch of a run and is not cut off. */
  ghost predicate Lives(trace: seq<Engine>, ops: seq<Op>, j: nat, i: nat, h: Handle) {
    && IsRun(trace, ops) && j <= i <= |ops|
    && (forall k | j <= k <= i :: Forwarding(trace[k], h) && h in trace[k].socks)
    && (forall k | j <= k < i :: trace[k].socks[h].Connected())
  }

  /** How many passes of a stretch write. */
  ghost function WritesIn(trace: seq<Engine>, ops: seq<Op>, j: nat, i: nat, h: Handle): nat
    requires IsRun(trace, ops) && j <= i <= |ops|
  {
    if j == i then 0 else WritesIn(trace, ops, j, i - 1, h) + if Writes(trace, ops, i - 1, h) then 1 else 0
  }

  lemma WrittenStep(trace: seq<Engine>, ops: seq<Op>, j: nat, k: nat, h: Handle)
    requires Lives(trace, ops, j, k + 1, h) && j <= k
    ensures var before, after := |TakenBy(trace[k], h)|, |TakenBy(trace[k + 1], h)|;
      && before <= after
      && (Writes(trace, ops, k, h) ==> before >= |trace[j].socks[h].Received()| || before < after)
  {
    assert Forwarding(trace[k], h) && Forwarding(trace[k + 1], h);
    HistoriesGrow(trace, ops, k, h);
    if Writes(trace, ops, k, h) {
      WritesTakes(trace, ops, k, h);
      ReceivedStays(trace, ops, j, k, h);
    }
  }

  lemma {:induction false} WrittenCount(trace: seq<Engine>, ops: seq<Op>, j: nat, i: nat, h: Handle)
    requires Lives(trace, ops, j, i, h)
    ensures |TakenBy(trace[i], h)| >= Min(|trace[j].socks[h].Received()|, WritesIn(trace, ops, j, i, h))
    decreases i
  {
    if j < i {
      WrittenCount(trace, ops, j, i - 1, h);
      WrittenStep(trace, ops, j, i - 1, h);
    }
  }

  /** In every run, while a connection lives: once as many passes have written as
      bytes have been received from the application, those bytes are written. */
  lemma ApplicationIsHeard(trace: seq<Engine>, ops: seq<Op>, j: nat, i: nat, h: Handle)
    requires Lives(trace, ops, j, i, h) && WritesIn(trace, ops, j, i, h) >= |trace[j].socks[h].Received()|
    ensures trace[j].socks[h].Received() <= ContextOf(trace[i], h).stream.written
  {
    WrittenCount(trace, ops, j, i, h);
    ReceivedStays(trace, ops, j, i, h);
    InSocks(trace, ops, i, h);
    LongPrefix(trace[j].socks[h].Received(), trace[i].socks[h].taken, trace[i].socks[h].Received());
  }

  // ---------------------------------------------------------------- published connections

  ghost predicate Serves(trace: seq<Engine>, ops: seq<Op>, k: nat, h: Handle) {
    IsRun(trace, ops) && k < |ops| && Serving(trace[k], h) && Serving(trace[k + 1], h)
  }

  function ServedBy(e: Engine, h: Handle): Pub.ConnectionContext
    requires Serving(e, h)
  {
    e.published.states[h].context
  }

  lemma PublishedPassOf(trace: seq<Engine>, ops: seq<Op>, k: nat, h: Handle)
    requires Serves(trace, ops, k, h)
    ensures h in trace[k].socks && h in trace[k + 1].socks
    ensures PubP.Flow(ServedBy(trace[k], h), trace[k].socks[h]) && trace[k].socks[h].Valid()
    ensures ops[k].ForwardIn? ==>
      var l := Pub.Pump(Pub.Link(ServedBy(trace[k], h), trace[k].socks[h], false), ops[k].pubIos(h));
      trace[k + 1].socks[h] == l.socket && ServedBy(trace[k + 1], h) == l.context
    ensures ops[k].Poll? ==> PollStep(trace[k].socks[h], trace[k + 1].socks[h])
    ensures !ops[k].ForwardIn? && !ops[k].Poll? ==> trace[k + 1].socks[h] == trace[k].socks[h]
    ensures !ops[k].ForwardIn? ==> ServedBy(trace[k + 1], h) == ServedBy(trace[k], h)
  {
    InUnderAt(trace, ops, k, h);
    if ops[k].Poll? {
      assert StepAt(trace, ops, k);
      assert PollStep(trace[k].socks[h], ops[k].net(h, trace[k].socks[h]));
    }
  }

  lemma PublishedPumpGrows(l: Pub.Link, io: Pub.Io)
    ensures var m := Pub.Pump(l, io);
      && l.socket.accepted <= m.socket.accepted && l.socket.taken <= m.socket.taken
      && l.context.host.read <= m.context.host.read
  {
    var l1 := Pub.Fill(l, io.read);
    var l2 := Pub.Push(l1, io.send);
    assert l.context.host.read <= l1.context.host.read == l2.context.host.read;
    assert l.socket.accepted <= l2.socket.accepted && l2.socket.taken == l.socket.taken;
    var l3 := Pub.Downlink(l2, io.write);
    assert l3.socket.accepted == l2.socket.accepted && l2.socket.taken <= l3.socket.taken;
  }

  lemma PublishedHistoriesGrow(trace: seq<Engine>, ops: seq<Op>, k: nat, h: Handle)
    requires Serves(trace, ops, k, h)
    ensures h in trace[k].socks && h in trace[k + 1].socks
    ensures var s, t := trace[k].socks[h], trace[k + 1].socks[h];
      && s.accepted <= t.accepted && s.taken <= t.taken && (s.Connected() ==> s.Received() <= t.Received())
      && ServedBy(trace[k], h).host.read <= ServedBy(trace[k + 1], h).host.read
  {
    PublishedPassOf(trace, ops, k, h);
    var s := trace[k].socks[h];
    if ops[k].ForwardIn? {
      var l := Pub.Link(ServedBy(trace[k], h), s, false);
      PublishedPumpGrows(l, ops[k].pubIos(h));
      PubP.PumpKeepsFlow(l, ops[k].pubIos(h));
    } else if ops[k].Poll? {
      PollReceives(s, trace[k + 1].socks[h]);
    }
  }

  /** A pass that can hand a byte to the namespace, and one that can hand one to the
      host. */
  ghost predicate Sends(trace: seq<Engine>, ops: seq<Op>, k: nat, h: Handle)
    requires IsRun(trace, ops) && k < |ops|
  {
    && ops[k].ForwardIn? && PubP.Faultless(ops[k].pubIos(h)) && h in trace[k].socks
    && trace[k].socks[h].Connected() && |trace[k].socks[h].tx| < 65536
    && ops[k].pubIos(h).send.Accept? && ops[k].pubIos(h).send.n > 0
  }

  ghost predicate Returns(trace: seq<Engine>, ops: seq<Op>, k: nat, h: Handle)
    requires IsRun(trace, ops) && k < |ops|
  {
    && ops[k].ForwardIn? && PubP.Faultless(ops[k].pubIos(h)) && h in trace[k].socks && trace[k].socks[h].Connected()
    && ops[k].pubIos(h).write.Wrote? && ops[k].pubIos(h).write.n > 0
  }

  lemma SendsAccepts(trace: seq<Engine>, ops: seq<Op>, k: nat, h: Handle)
    requires Serves(trace, ops, k, h) && Sends(trace, ops, k, h)
    ensures h in trace[k + 1].socks
    ensures ServedBy(trace[k], h).hostToNamespace == []
         || |trace[k].socks[h].accepted| < |trace[k + 1].socks[h].accepted|
  {
    PublishedPassOf(trace, ops, k, h);
    PubP.PassMoves(ServedBy(trace[k], h), trace[k].socks[h], ops[k].pubIos(h));
  }

  lemma ReturnsTakes(trace: seq<Engine>, ops: seq<Op>, k: nat, h: Handle)
    requires Serves(trace, ops, k, h) && Returns(trace, ops, k, h)
    ensures h in trace[k + 1].socks
    ensures trace[k].socks[h].rx == [] || |trace[k].socks[h].taken| < |trace[k + 1].socks[h].taken|
  {
    PublishedPassOf(trace, ops, k, h);
    PubP.PassMoves(ServedBy(trace[k], h), trace[k].socks[h], ops[k].pubIos(h));
  }

  lemma {:induction false} ReadStays(trace: seq<Engine>, ops: seq<Op>, j: nat, i: nat, h: Handle)
    requires IsRun(trace, ops) && j <= i <= |ops|
    requires forall k | j <= k <= i :: Serving(trace[k], h)
    ensures ServedBy(trace[j], h).host.read <= ServedBy(trace[i], h).host.read
  {
    if j < i {
      ReadStays(trace, ops, j, i - 1, h);
      assert Serving(trace[i - 1], h) && Serving(trace[i], h);
      PublishedHistoriesGrow(trace, ops, i - 1, h);
    }
  }

  lemma {:induction false} PublishedReceivedStays(trace: seq<Engine>, ops: seq<Op>, j: nat, i: nat, h: Handle)
    requires IsRun(trace, ops) && j <= i <= |ops|
    requires forall k | j <= k <= i :: Serving(trace[k], h) && h in trace[k].socks
    requires forall k | j <= k < i :: trace[k].socks[h].Connected()
    ensures trace[j].socks[h].Received() <= trace[i].socks[h].Received()
  {
    if j < i {
      PublishedReceivedStays(trace, ops, j, i - 1, h);
      assert Serving(trace[i - 1], h) && Serving(trace[i], h);
      PublishedHistoriesGrow(trace, ops, i - 1, h);
    }
  }

  lemma ServedFlow(trace: seq<Engine>, ops: seq<Op>, k: nat, h: Handle)
    requires IsRun(trace, ops) && k <= |ops| && Serving(trace[k], h)
    ensures h in trace[k].socks && PubP.Flow(ServedBy(trace[k], h), trace[k].socks[h])
  {
    RunsStayConsistent(trace, ops, k);
    assert PubP.Consistent(trace[k].published.states[h], trace[k].socks[h], trace[k].polls);
  }

  ghost predicate ServesOver(trace: seq<Engine>, ops: seq<Op>, j: nat, i: nat, h: Handle) {
    IsRun(trace, ops) && j <= i <= |ops| && forall k | j <= k <= i :: Serving(trace[k], h)
  }

  ghost function SendsIn(trace: seq<Engine>, ops: seq<Op>, j: nat, i: nat, h: Handle): nat
    requires IsRun(trace, ops) && j <= i <= |ops|
  {
    if j == i then 0 else SendsIn(trace, ops, j, i - 1, h) + if Sends(trace, ops, i - 1, h) then 1 else 0
  }

  ghost function ReturnsIn(trace: seq<Engine>, ops: seq<Op>, j: nat, i: nat, h: Handle): nat
    requires IsRun(trace, ops) && j <= i <= |ops|
  {
    if j == i then 0 else ReturnsIn(trace, ops, j, i - 1, h) + if Returns(trace, ops, i - 1, h) then 1 else 0
  }

  lemma AcceptStep(trace: seq<Engine>, ops: seq<Op>, j: nat, k: nat, h: Handle)
    requires j <= k && ServesOver(trace, ops, j, k + 1, h)
    ensures var before, after := |AcceptedBy(trace[k], h)|, |AcceptedBy(trace[k + 1], h)|;
      && before <= after
      && (Sends(trace, ops, k, h) ==> before >= |ServedBy(trace[j], h).host.read| || before < after)
  {
    assert Serving(trace[k], h) && Serving(trace[k + 1], h);
    PublishedHistoriesGrow(trace, ops, k, h);
    if Sends(trace, ops, k, h) {
      SendsAccepts(trace, ops, k, h);
      ReadStays(trace, ops, j, k, h);
      ServedFlow(trace, ops, k, h);
    }
  }

  lemma {:induction false} AcceptCount(trace: seq<Engine>, ops: seq<Op>, j: nat, i: nat, h: Handle)
    requires ServesOver(trace, ops, j, i, h)
    ensures |AcceptedBy(trace[i], h)| >= Min(|ServedBy(trace[j], h).host.read|, SendsIn(trace, ops, j, i, h))
    decreases i
  {
    if j < i {
      AcceptCount(trace, ops, j, i - 1, h);
      AcceptStep(trace, ops, j, i - 1, h);
    }
  }

  /** In every run: once as many passes could send as bytes had been read from the
      host, the namespace's socket has accepted those bytes. */
  lemma HostIsHeard(trace: seq<Engine>, ops: seq<Op>, j: nat, i: nat, h: Handle)
    requires ServesOver(trace, ops, j, i, h) && SendsIn(trace, ops, j, i, h) >= |ServedBy(trace[j], h).host.read|
    ensures ServedBy(trace[j], h).host.read <= AcceptedBy(trace[i], h)
  {
    AcceptCount(trace, ops, j, i, h);
    ReadStays(trace, ops, j, i, h);
    ServedFlow(trace, ops, i, h);
    LongPrefix(ServedBy(trace[j], h).host.read, AcceptedBy(trace[i], h), ServedBy(trace[i], h).host.read);
  }

  ghost predicate ServedAlive(trace: seq<Engine>, ops: seq<Op>, j: nat, i: nat, h: Handle) {
    && IsRun(trace, ops) && j <= i <= |ops|
    && (forall k | j <= k <= i :: Serving(trace[k], h) && h in trace[k].socks)
    && (forall k | j <= k < i :: trace[k].socks[h].Connected())
  }

  lemma ReturnStep(trace: seq<Engine>, ops: seq<Op>, j: nat, k: nat, h: Handle)
    requires ServedAlive(trace, ops, j, k + 1, h) && j <= k
    ensures var before, after := |TakenBy(trace[k], h)|, |TakenBy(trace[k + 1], h)|;
      && before <= after
      && (Returns(trace, ops, k, h) ==> before >= |trace[j].socks[h].Received()| || before < after)
  {
    assert Serving(trace[k], h) && Serving(trace[k + 1], h);
    PublishedHistoriesGrow(trace, ops, k, h);
    if Returns(trace, ops, k, h) {
      ReturnsTakes(trace, ops, k, h);
      PublishedReceivedStays(trace, ops, j, k, h);
    }
  }

  lemma {:induction false} ReturnCount(trace: seq<Engine>, ops: seq<Op>, j: nat, i: nat, h: Handle)
    requires ServedAlive(trace, ops, j, i, h)
    ensures |TakenBy(trace[i], h)| >= Min(|trace[j].socks[h].Received()|, ReturnsIn(trace, ops, j, i, h))
    decreases i
  {
    if j < i {
      ReturnCount(trace, ops, j, i - 1, h);
      ReturnStep(trace, ops, j, i - 1, h);
    }
  }

  /** In every run, while a connection lives: once as many passes have written to the
      host as bytes had been received from the namespace, those bytes are written. */
  lemma NamespaceIsHeard(trace: seq<Engine>, ops: seq<Op>, j: nat, i: nat, h: Handle)
    requires ServedAlive(trace, ops, j, i, h)
    requires ReturnsIn(trace, ops, j, i, h) >= |trace[j].socks[h].Received()|
    ensures trace[j].socks[h].Received() <= ServedBy(trace[i], h).host.written
  {
    ReturnCount(trace, ops, j, i, h);
    PublishedReceivedStays(trace, ops, j, i, h);
    ServedFlow(trace, ops, i, h);
    LongPrefix(trace[j].socks[h].Received(), trace[i].socks[h].taken, trace[i].socks[h].Received());
  }
}

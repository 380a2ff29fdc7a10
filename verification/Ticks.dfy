/** What a tick achieves for one connection. */
module Ticks {
  import opened Common
  import opened Targets
  import opened Sockets
  import opened ProxyStreams
  import opened Engines
  import opened Steps
  import opened EventLoops
  import opened EndToEnd
  import Out = Outbound
  import OutP = OutboundProofs
  import Pub = Published
  import PubP = PublishedProofs

  // ---------------------------------------------------------------- several operations

  /** An outgoing connection over several operations; none once it is removed. */
  function OutFold(ops: seq<Op>, c: Out.Conn, s: Socket, h: Handle, polls: nat): Option<(Out.Conn, Socket)>
    decreases |ops|
  {
    if ops == [] then Some((c, s))
    else if ops[0].CleanOut? && c.Closing? then None
    else
      var (d, t) := OutNext(ops[0], c, s, h, polls);
      OutFold(ops[1..], d, t, h, if ops[0].Poll? then polls + 1 else polls)
  }

  function InFold(ops: seq<Op>, c: Pub.Conn, s: Socket, h: Handle, polls: nat): Option<(Pub.Conn, Socket)>
    decreases |ops|
  {
    if ops == [] then Some((c, s))
    else if ops[0].CleanIn? && c.Closing? then None
    else
      var (d, t) := InNext(ops[0], c, s, h, polls);
      InFold(ops[1..], d, t, h, if ops[0].Poll? then polls + 1 else polls)
  }

  ghost predicate AllAllowed(ops: seq<Op>) {
    forall op | op in ops :: Allowed(op)
  }

  lemma PollsCounted(e: Engine, op: Op)
    requires Keyed(e)
    ensures Apply(e, op).polls == if op.Poll? then e.polls + 1 else e.polls
  {
  }

  lemma OutFoldFirst(ops: seq<Op>, c: Out.Conn, s: Socket, h: Handle, polls: nat, d: Out.Conn, t: Socket, after: nat)
    requires ops != [] && (d, t) == OutNext(ops[0], c, s, h, polls) && !(ops[0].CleanOut? && c.Closing?)
    requires after == if ops[0].Poll? then polls + 1 else polls
    ensures OutFold(ops, c, s, h, polls) == OutFold(ops[1..], d, t, h, after)
  {
  }

  lemma OutFirst(e: Engine, op: Op, h: Handle)
    requires EngineInv(e) && Allowed(op) && h in e.outgoing.states
    ensures h in e.socks && OutGoes(e, op, Apply(e, op), h) && EngineInv(Apply(e, op))
    ensures Apply(e, op).polls == if op.Poll? then e.polls + 1 else e.polls
  {
    OutUnder(e, op, h);
    ApplyKeeps(e, op);
    ConsistentIsKeyed(e);
    PollsCounted(e, op);
  }

  lemma {:induction false} OutOver(e: Engine, ops: seq<Op>, h: Handle)
    requires EngineInv(e) && AllAllowed(ops) && h in e.outgoing.states
    ensures h in e.socks
    ensures var r := OutFold(ops, e.outgoing.states[h], e.socks[h], h, e.polls);
      var f := ApplyAll(e, ops);
      r.Some? ==> h in f.outgoing.states && h in f.socks && (f.outgoing.states[h], f.socks[h]) == r.value
    decreases |ops|
  {
    if ops != [] {
      assert ops[0] in ops && forall op | op in ops[1..] :: op in ops;
      OutFirst(e, ops[0], h);
      var f := Apply(e, ops[0]);
      if h in f.outgoing.states {
        OutOver(f, ops[1..], h);
        OutFoldFirst(ops, e.outgoing.states[h], e.socks[h], h, e.polls, f.outgoing.states[h], f.socks[h], f.polls);
      }
    }
  }

  lemma InFoldFirst(ops: seq<Op>, c: Pub.Conn, s: Socket, h: Handle, polls: nat, d: Pub.Conn, t: Socket, after: nat)
    requires ops != [] && (d, t) == InNext(ops[0], c, s, h, polls) && !(ops[0].CleanIn? && c.Closing?)
    requires after == if ops[0].Poll? then polls + 1 else polls
    ensures InFold(ops, c, s, h, polls) == InFold(ops[1..], d, t, h, after)
  {
  }

  lemma InFirst(e: Engine, op: Op, h: Handle)
    requires EngineInv(e) && Allowed(op) && h in e.published.states
    ensures h in e.socks && InGoes(e, op, Apply(e, op), h) && EngineInv(Apply(e, op))
    ensures Apply(e, op).polls == if op.Poll? then e.polls + 1 else e.polls
  {
    InUnder(e, op, h);
    ApplyKeeps(e, op);
    ConsistentIsKeyed(e);
    PollsCounted(e, op);
  }

  lemma {:induction false} InOver(e: Engine, ops: seq<Op>, h: Handle)
    requires EngineInv(e) && AllAllowed(ops) && h in e.published.states
    ensures h in e.socks
    ensures var r := InFold(ops, e.published.states[h], e.socks[h], h, e.polls);
      var f := ApplyAll(e, ops);
      r.Some? ==> h in f.published.states && h in f.socks && (f.published.states[h], f.socks[h]) == r.value
    decreases |ops|
  {
    if ops != [] {
      assert ops[0] in ops && forall op | op in ops[1..] :: op in ops;
      InFirst(e, ops[0], h);
      var f := Apply(e, ops[0]);
      if h in f.published.states {
        InOver(f, ops[1..], h);
        InFoldFirst(ops, e.published.states[h], e.socks[h], h, e.polls, f.published.states[h], f.socks[h], f.polls);
      }
    }
  }

  lemma OutFoldCons(op: Op, rest: seq<Op>, c: Out.Conn, s: Socket, h: Handle, polls: nat)
    ensures OutFold([op] + rest, c, s, h, polls) ==
      if op.CleanOut? && c.Closing? then None
      else OutFold(rest, OutNext(op, c, s, h, polls).0, OutNext(op, c, s, h, polls).1, h,
                   if op.Poll? then polls + 1 else polls)
  {
    TailOf([op], rest);
    assert [op][1..] + rest == rest;
  }

  lemma InFoldCons(op: Op, rest: seq<Op>, c: Pub.Conn, s: Socket, h: Handle, polls: nat)
    ensures InFold([op] + rest, c, s, h, polls) ==
      if op.CleanIn? && c.Closing? then None
      else InFold(rest, InNext(op, c, s, h, polls).0, InNext(op, c, s, h, polls).1, h,
                  if op.Poll? then polls + 1 else polls)
  {
    TailOf([op], rest);
    assert [op][1..] + rest == rest;
  }

  // ---------------------------------------------------------------- one tick

  /** The operations of a tick behind the first one. */
  function AfterObserve(env: TickEnv, plan: Endpoint -> Route): seq<Op> {
    [Attach(env.attachAt, env.accepts)] + ([Poll(env.ingress)] + Processing(env, plan))
  }

  function Processing(env: TickEnv, plan: Endpoint -> Route): seq<Op> {
    [Listeners(env.listenAt, plan)] + ([ForwardOut(env.outIos)] + ([Handshakes(env.connectAt)]
    + ([ForwardIn(env.pubIos)] + Ending(env))))
  }

  function Ending(env: TickEnv): seq<Op> {
    [Poll(env.egress)] + ([CleanOut] + ([CleanIn] + []))
  }

  lemma TickInOrder(env: TickEnv, plan: Endpoint -> Route)
    ensures TickOps(env, plan) == [Observe(env.syns)] + AfterObserve(env, plan)
  {
  }

  lemma AllowedCons(op: Op, rest: seq<Op>)
    requires Allowed(op) && AllAllowed(rest)
    ensures AllAllowed([op] + rest)
  {
  }

  lemma ProcessingAllowed(env: TickEnv, plan: Endpoint -> Route)
    requires EnvContract(env)
    ensures AllAllowed(Processing(env, plan))
  {
    AllowedCons(CleanIn, []);
    AllowedCons(CleanOut, [CleanIn] + []);
    AllowedCons(Poll(env.egress), [CleanOut] + ([CleanIn] + []));
    var in1 := [ForwardIn(env.pubIos)] + Ending(env);
    var in2 := [Handshakes(env.connectAt)] + in1;
    AllowedCons(ForwardIn(env.pubIos), Ending(env));
    AllowedCons(Handshakes(env.connectAt), in1);
    AllowedCons(ForwardOut(env.outIos), in2);
    AllowedCons(Listeners(env.listenAt, plan), [ForwardOut(env.outIos)] + in2);
  }

  lemma TickAllowed(env: TickEnv, plan: Endpoint -> Route)
    requires EnvContract(env)
    ensures AllAllowed(TickOps(env, plan)) && AllAllowed(AfterObserve(env, plan))
  {
    ProcessingAllowed(env, plan);
    AllowedCons(Poll(env.ingress), Processing(env, plan));
    AllowedCons(Attach(env.attachAt, env.accepts), [Poll(env.ingress)] + Processing(env, plan));
    AllowedCons(Observe(env.syns), AfterObserve(env, plan));
    TickInOrder(env, plan);
  }

  /** What a tick does to an outgoing connection: the network delivers, the listener
      pass decides, one forwarding pass moves bytes, the network takes what is to be
      sent, and a closed connection is removed. */
  function OutTick(env: TickEnv, plan: Endpoint -> Route, c: Out.Conn, s: Socket, h: Handle, polls: nat)
    : Option<(Out.Conn, Socket)>
  {
    var (c1, s1) := Out.ListenerStep(c, env.ingress(h, s), env.listenAt, polls + 1, plan);
    var (c2, s2) := Out.ShuttleStep(c1, s1, env.outIos(h), polls + 1);
    if c2.Closing? then None else Some((c2, env.egress(h, s2)))
  }

  lemma OutEnding(env: TickEnv, c: Out.Conn, s: Socket, h: Handle, polls: nat)
    ensures OutFold(Ending(env), c, s, h, polls) == if c.Closing? then None else Some((c, env.egress(h, s)))
  {
    OutFoldCons(Poll(env.egress), [CleanOut] + ([CleanIn] + []), c, s, h, polls);
    OutFoldCons(CleanOut, [CleanIn] + [], c, env.egress(h, s), h, polls + 1);
    OutFoldCons(CleanIn, [], c, env.egress(h, s), h, polls + 1);
  }

  lemma OutProcessing(env: TickEnv, plan: Endpoint -> Route, c: Out.Conn, s: Socket, h: Handle, polls: nat)
    ensures var (c1, s1) := Out.ListenerStep(c, s, env.listenAt, polls, plan);
      var (c2, s2) := Out.ShuttleStep(c1, s1, env.outIos(h), polls);
      OutFold(Processing(env, plan), c, s, h, polls) == if c2.Closing? then None else Some((c2, env.egress(h, s2)))
  {
    var (c1, s1) := Out.ListenerStep(c, s, env.listenAt, polls, plan);
    var (c2, s2) := Out.ShuttleStep(c1, s1, env.outIos(h), polls);
    var in1 := [ForwardIn(env.pubIos)] + Ending(env);
    var in2 := [Handshakes(env.connectAt)] + in1;
    OutFoldCons(Listeners(env.listenAt, plan), [ForwardOut(env.outIos)] + in2, c, s, h, polls);
    OutFoldCons(ForwardOut(env.outIos), in2, c1, s1, h, polls);
    OutFoldCons(Handshakes(env.connectAt), in1, c2, s2, h, polls);
    OutFoldCons(ForwardIn(env.pubIos), Ending(env), c2, s2, h, polls);
    OutEnding(env, c2, s2, h, polls);
  }

  lemma OutIngress(env: TickEnv, plan: Endpoint -> Route, c: Out.Conn, s: Socket, h: Handle, polls: nat)
    ensures OutFold(AfterObserve(env, plan), c, s, h, polls) == OutTick(env, plan, c, s, h, polls)
  {
    OutFoldCons(Attach(env.attachAt, env.accepts), [Poll(env.ingress)] + Processing(env, plan), c, s, h, polls);
    OutFoldCons(Poll(env.ingress), Processing(env, plan), c, s, h, polls);
    OutProcessing(env, plan, c, env.ingress(h, s), h, polls + 1);
  }

  lemma OutTickFolds(env: TickEnv, plan: Endpoint -> Route, c: Out.Conn, s: Socket, h: Handle, polls: nat)
    ensures OutFold(TickOps(env, plan), c, s, h, polls) == OutTick(env, plan, c, s, h, polls)
  {
    TickInOrder(env, plan);
    OutFoldCons(Observe(env.syns), AfterObserve(env, plan), c, s, h, polls);
    OutIngress(env, plan, c, s, h, polls);
  }

  /** A tick takes every outgoing connection through exactly that. */
  lemma TickCarries(e: Engine, env: TickEnv, plan: Endpoint -> Route, h: Handle)
    requires EngineInv(e) && EnvContract(env) && h in e.outgoing.states
    ensures h in e.socks
    ensures var r := OutTick(env, plan, e.outgoing.states[h], e.socks[h], h, e.polls);
      var f := ApplyAll(e, TickOps(env, plan));
      r.Some? ==> h in f.outgoing.states && h in f.socks && (f.outgoing.states[h], f.socks[h]) == r.value
  {
    TickAllowed(env, plan);
    OutOver(e, TickOps(env, plan), h);
    OutTickFolds(env, plan, e.outgoing.states[h], e.socks[h], h, e.polls);
  }

  /** The network completes the handshake of a SYN while the tick takes it in. */
  ghost predicate Completes(net: Net, key: Out.Key) {
    forall h: Handle ::
      var s := net(h, Out.ListenSocket(key.dstPort)); s.Connected() && s.local == Some((key.dstIp, key.dstPort))
  }

  /** A SYN with a new key whose handshake completes leads, within the tick, to the
      connect that the plan names for its destination, in a slot of its own. */
  lemma SynStartsConnect(e: Engine, env: TickEnv, plan: Endpoint -> Route, syn: Out.Syn) returns (h: Handle)
    requires EngineInv(e) && EnvContract(env) && syn in env.syns
    requires syn.key !in e.outgoing.live && syn.key.dstPort != 0 && Completes(env.ingress, syn.key)
    ensures h !in e.socks
    ensures var e1 := Apply(e, Observe(env.syns)); h in e1.outgoing.endpoint && e1.outgoing.endpoint[h] == syn.key
    ensures var f := ApplyAll(e, TickOps(env, plan));
      && h in f.outgoing.states
      && f.outgoing.states[h] == Out.Connecting(plan((syn.key.dstIp, syn.key.dstPort)))
  {
    var e1 := Apply(e, Observe(env.syns));
    h := SynListens(e, env.syns, syn);
    ApplyKeeps(e, Observe(env.syns));
    TickAllowed(env, plan);
    TickInOrder(env, plan);
    TailOf([Observe(env.syns)], AfterObserve(env, plan));
    assert [Observe(env.syns)][1..] + AfterObserve(env, plan) == AfterObserve(env, plan);
    OutOver(e1, AfterObserve(env, plan), h);
    OutIngress(env, plan, e1.outgoing.states[h], e1.socks[h], h, e1.polls);
  }

  lemma SynListens(e: Engine, syns: seq<Out.Syn>, syn: Out.Syn) returns (h: Handle)
    requires EngineInv(e) && syn in syns && syn.key !in e.outgoing.live && syn.key.dstPort != 0
    ensures var e1 := Apply(e, Observe(syns));
      && h !in e.socks && h in e1.outgoing.states && e1.outgoing.states[h].Listening?
      && h in e1.socks && e1.socks[h] == Out.ListenSocket(syn.key.dstPort)
      && h in e1.outgoing.endpoint && e1.outgoing.endpoint[h] == syn.key
  {
    OutP.ObserveSynsKeeps(e.outgoing, e.socks, syns, e.polls);
    var e1 := Apply(e, Observe(syns));
    assert syn.key in e1.outgoing.endpoint.Values;
    assert forall g | g in e.outgoing.states :: e.outgoing.endpoint[g] in e.outgoing.live;
    h :| h in e1.outgoing.endpoint && e1.outgoing.endpoint[h] == syn.key;
  }

  /** And once that connect has succeeded, the connection forwards its stream. */
  lemma SynToForwarding(e: Engine, env: TickEnv, plan: Endpoint -> Route, syn: Out.Syn,
                        connects: Handle -> Out.ConnectAnswer, stream: ProxyStream) returns (h: Handle)
    requires EngineInv(e) && EnvContract(env) && syn in env.syns
    requires syn.key !in e.outgoing.live && syn.key.dstPort != 0 && Completes(env.ingress, syn.key)
    requires Out.ConnectContract(connects) && forall g :: connects(g) == Out.Connected(stream)
    ensures var g := Apply(ApplyAll(e, TickOps(env, plan)), Connects(connects));
      Forwarding(g, h) && ContextOf(g, h) == Out.ForwardContext(stream, [], Out.Open)
  {
    h := SynStartsConnect(e, env, plan, syn);
    var f := ApplyAll(e, TickOps(env, plan));
    TickAllowed(env, plan);
    OpsKeep(e, TickOps(env, plan));
    OutUnder(f, Connects(connects), h);
  }

  lemma {:induction false} OpsKeep(e: Engine, ops: seq<Op>)
    requires EngineInv(e) && AllAllowed(ops)
    ensures EngineInv(ApplyAll(e, ops))
    decreases |ops|
  {
    if ops != [] {
      assert ops[0] in ops && forall op | op in ops[1..] :: op in ops;
      ApplyKeeps(e, ops[0]);
      OpsKeep(Apply(e, ops[0]), ops[1..]);
    }
  }

  /** A tick forwards: an open connection with something left to deliver has
      delivered some of it after a tick that lets a byte through. */
  lemma TickForwards(e: Engine, env: TickEnv, plan: Endpoint -> Route, h: Handle)
    requires EngineInv(e) && EnvContract(env) && Forwarding(e, h) && h in e.socks
    requires var s := env.ingress(h, e.socks[h]); s.state.Established? && OutP.Generous(s, env.outIos(h))
    requires e.socks[h].accepted != ContextOf(e, h).stream.Tunnel()
    ensures var f := ApplyAll(e, TickOps(env, plan));
      Forwarding(f, h) && h in f.socks && |f.socks[h].accepted| > |e.socks[h].accepted|
  {
    var c, s := ContextOf(e, h), env.ingress(h, e.socks[h]);
    TickCarries(e, env, plan, h);
    assert PollStep(e.socks[h], s);
    OutP.PollKeeps(e.outgoing.states[h], e.socks[h], s, e.polls);
    OutP.GenerousPassDelivers(c, s, env.outIos(h));
    OutP.PassCloses(c, s, env.outIos(h), e.polls + 1);
    var l := Out.Pump(Out.Link(c, s), env.outIos(h));
    assert PollStep(l.socket, env.egress(h, l.socket));
  }

  /** What a tick does to a published connection. */
  function InTick(env: TickEnv, c: Pub.Conn, s: Socket, h: Handle, polls: nat): Option<(Pub.Conn, Socket)> {
    var (c1, s1) := Pub.ConnectStep(c, env.ingress(h, s), env.connectAt, polls + 1);
    var (c2, s2) := Pub.ShuttleStep(c1, s1, env.pubIos(h), polls + 1);
    if c2.Closing? then None else Some((c2, env.egress(h, s2)))
  }

  lemma InEnding(env: TickEnv, c: Pub.Conn, s: Socket, h: Handle, polls: nat)
    ensures InFold(Ending(env), c, s, h, polls) == if c.Closing? then None else Some((c, env.egress(h, s)))
  {
    InFoldCons(Poll(env.egress), [CleanOut] + ([CleanIn] + []), c, s, h, polls);
    InFoldCons(CleanOut, [CleanIn] + [], c, env.egress(h, s), h, polls + 1);
    InFoldCons(CleanIn, [], c, env.egress(h, s), h, polls + 1);
  }

  lemma InProcessing(env: TickEnv, plan: Endpoint -> Route, c: Pub.Conn, s: Socket, h: Handle, polls: nat)
    ensures var (c1, s1) := Pub.ConnectStep(c, s, env.connectAt, polls);
      var (c2, s2) := Pub.ShuttleStep(c1, s1, env.pubIos(h), polls);
      InFold(Processing(env, plan), c, s, h, polls) == if c2.Closing? then None else Some((c2, env.egress(h, s2)))
  {
    var (c1, s1) := Pub.ConnectStep(c, s, env.connectAt, polls);
    var (c2, s2) := Pub.ShuttleStep(c1, s1, env.pubIos(h), polls);
    var in1 := [ForwardIn(env.pubIos)] + Ending(env);
    var in2 := [Handshakes(env.connectAt)] + in1;
    InFoldCons(Listeners(env.listenAt, plan), [ForwardOut(env.outIos)] + in2, c, s, h, polls);
    InFoldCons(ForwardOut(env.outIos), in2, c, s, h, polls);
    InFoldCons(Handshakes(env.connectAt), in1, c, s, h, polls);
    InFoldCons(ForwardIn(env.pubIos), Ending(env), c1, s1, h, polls);
    InEnding(env, c2, s2, h, polls);
  }

  lemma PublishedTickCarries(e: Engine, env: TickEnv, plan: Endpoint -> Route, h: Handle)
    requires EngineInv(e) && EnvContract(env) && h in e.published.states
    ensures h in e.socks
    ensures var r := InTick(env, e.published.states[h], e.socks[h], h, e.polls);
      var f := ApplyAll(e, TickOps(env, plan));
      r.Some? ==> h in f.published.states && h in f.socks && (f.published.states[h], f.socks[h]) == r.value
  {
    TickAllowed(env, plan);
    InOver(e, TickOps(env, plan), h);
    InTickFolds(env, plan, e.published.states[h], e.socks[h], h, e.polls);
  }

  lemma InIngress(env: TickEnv, plan: Endpoint -> Route, c: Pub.Conn, s: Socket, h: Handle, polls: nat)
    ensures InFold(AfterObserve(env, plan), c, s, h, polls) == InTick(env, c, s, h, polls)
  {
    InFoldCons(Attach(env.attachAt, env.accepts), [Poll(env.ingress)] + Processing(env, plan), c, s, h, polls);
    InFoldCons(Poll(env.ingress), Processing(env, plan), c, s, h, polls);
    InProcessing(env, plan, c, env.ingress(h, s), h, polls + 1);
  }

  lemma InTickFolds(env: TickEnv, plan: Endpoint -> Route, c: Pub.Conn, s: Socket, h: Handle, polls: nat)
    ensures InFold(TickOps(env, plan), c, s, h, polls) == InTick(env, c, s, h, polls)
  {
    TickInOrder(env, plan);
    InFoldCons(Observe(env.syns), AfterObserve(env, plan), c, s, h, polls);
    InIngress(env, plan, c, s, h, polls);
  }

  /** A published connection whose socket the network connects forwards in the same
      tick: what the host offers goes to the namespace as far as it is accepted. */
  lemma TickServes(e: Engine, env: TickEnv, plan: Endpoint -> Route, h: Handle)
    requires EngineInv(e) && EnvContract(env) && h in e.published.states && h in e.socks
    requires e.published.states[h].Connecting? && env.ingress(h, e.socks[h]).state.Established?
    requires PubP.Faultless(env.pubIos(h)) && env.pubIos(h).read != Pub.HostData([])
    ensures var f := ApplyAll(e, TickOps(env, plan));
      && Serving(f, h) && h in f.socks
      && var offered := PubP.ReadBy(Pub.ConnectionContext(e.published.states[h].host, [], false), env.pubIos(h).read);
      var n := PubP.SentBy(env.ingress(h, e.socks[h]), offered, env.pubIos(h).send);
      && f.published.states[h].context.host.read == offered && f.socks[h].accepted == offered[..n]
  {
    var s, c := env.ingress(h, e.socks[h]), Pub.ConnectionContext(e.published.states[h].host, [], false);
    PublishedTickCarries(e, env, plan, h);
    assert PollStep(e.socks[h], s);
    PollKeepsValid(e.socks[h], s);
    PubP.OpenConnectionClosesOnlyDrained(c, s, env.pubIos(h), e.polls + 1);
    PubP.PassMoves(c, s, env.pubIos(h));
    var l := Pub.Pump(Pub.Link(c, s, false), env.pubIos(h));
    assert PollStep(l.socket, env.egress(h, l.socket));
    var offered := PubP.ReadBy(c, env.pubIos(h).read);
    assert [] + offered == offered;
  }
}

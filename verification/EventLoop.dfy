/**
 * The event loop: the components as objects over one socket set, driven in the
 * fixed order of a tick. Every method is one or more operations of the engine.
 */
module EventLoops {
  import opened Common
  import opened Targets
  import opened Sockets
  import opened Engines
  import Out = Outbound
  import Pub = Published
  import PubP = PublishedProofs
  import OutboundTcps
  import PublishedTcps
  import Rules
  import Routing
  import DnsWire
  import FakeDnsPool

  /** Everything the environment decides during one tick. */
  datatype TickEnv = TickEnv(
    syns: seq<Out.Syn>, attachAt: nat, accepts: Pub.Accepted -> bool, ingress: Net,
    datagrams: seq<DnsWire.Bytes>, listenAt: nat, outIos: Handle -> Out.Io,
    connectAt: nat, pubIos: Handle -> Pub.Io, egress: Net)

  ghost predicate EnvContract(env: TickEnv) {
    NetContract(env.ingress) && NetContract(env.egress)
  }

  /** The operations of a tick, in order. */
  function TickOps(env: TickEnv, plan: Endpoint -> Route): seq<Op> {
    [Observe(env.syns), Attach(env.attachAt, env.accepts), Poll(env.ingress),
     Listeners(env.listenAt, plan), ForwardOut(env.outIos), Handshakes(env.connectAt), ForwardIn(env.pubIos),
     Poll(env.egress), CleanOut, CleanIn]
  }

  function ApplyAll(e: Engine, ops: seq<Op>): Engine
    decreases |ops|
  {
    if ops == [] then e else ApplyAll(Apply(e, ops[0]), ops[1..])
  }

  class EventLoop {
    const sockets: SocketSet
    const outbound: OutboundTcps.OutboundTcp
    const published: PublishedTcps.PublishedTcp
    const dns: Routing.DnsInterceptor
    const config: Rules.Config
    const engine: Rules.Engine
    const utf8: DnsWire.Utf8

    ghost function Snap(): Engine
      reads sockets, outbound, published, published.ports
    {
      Engine(outbound.View(), published.View(), sockets.m, sockets.polls)
    }

    ghost predicate Consistent()
      reads sockets, outbound, published, published.ports
    {
      EngineInv(Snap())
    }

    ghost predicate RoutesReady()
      reads dns.fakeDns, config.rules.cidr, config.rules.cidr.at.Values
    {
      dns.fakeDns.Valid() && config.rules.Valid()
    }

    ghost function CurrentPlan(): Endpoint -> Route
      requires RoutesReady()
      reads dns.fakeDns, config.rules.cidr, config.rules.cidr.at.Values
    {
      Routing.Plan(dns.fakeDns.log, config.rules.specs, config.defaultProxy, engine)
    }

    constructor (settings: Rules.Config, regexes: Rules.Engine, decodable: DnsWire.Utf8)
      requires settings.rules.Valid()
      ensures Consistent() && Snap() == INITIAL && RoutesReady()
    {
      sockets := new SocketSet();
      outbound := new OutboundTcps.OutboundTcp();
      published := new PublishedTcps.PublishedTcp();
      dns := new Routing.DnsInterceptor();
      config, engine, utf8 := settings, regexes, decodable;
      new;
      InitialIsConsistent();
    }

    method ObserveSyns(syns: seq<Out.Syn>)
      requires Keyed(Snap())
      modifies sockets, outbound
      ensures Snap() == Apply(old(Snap()), Observe(syns))
      ensures RoutesReady() == old(RoutesReady())
    {
      outbound.ObserveSyns(syns, sockets);
    }

    method AttachAccepted(now: nat, accepts: Pub.Accepted -> bool)
      requires Keyed(Snap())
      modifies sockets, published, published.ports
      ensures Snap() == Apply(old(Snap()), Attach(now, accepts))
      ensures RoutesReady() == old(RoutesReady())
    {
      published.AttachAccepted(sockets, now, accepts);
    }

    method PollInterface(net: Net)
      requires Keyed(Snap())
      modifies sockets
      ensures Snap() == Apply(old(Snap()), Poll(net))
      ensures RoutesReady() == old(RoutesReady())
    {
      sockets.Poll(net);
    }

    method UpdateListeners(now: nat)
      requires Keyed(Snap()) && RoutesReady()
      modifies sockets, outbound
      ensures RoutesReady() == old(RoutesReady())
      ensures CurrentPlan() == old(CurrentPlan()) && Snap() == Apply(old(Snap()), Listeners(now, CurrentPlan()))
    {
      outbound.UpdateListeners(sockets, now, dns, config, engine);
    }

    method ShuttleOutbound(ios: Handle -> Out.Io)
      requires Keyed(Snap())
      modifies sockets, outbound
      ensures Snap() == Apply(old(Snap()), ForwardOut(ios))
      ensures RoutesReady() == old(RoutesReady())
    {
      outbound.ShuttleEstablished(sockets, ios);
    }

    method PollHandshakes(now: nat)
      requires Keyed(Snap())
      modifies sockets, published
      ensures Snap() == Apply(old(Snap()), Handshakes(now))
      ensures RoutesReady() == old(RoutesReady())
    {
      published.PollConnecting(sockets, now);
    }

    method ShuttlePublished(ios: Handle -> Pub.Io)
      requires Keyed(Snap())
      modifies sockets, published
      ensures Snap() == Apply(old(Snap()), ForwardIn(ios))
      ensures RoutesReady() == old(RoutesReady())
    {
      published.ShuttleEstablished(sockets, ios);
    }

    method CleanupOutbound()
      requires Keyed(Snap()) && Flushed(Snap())
      modifies sockets, outbound
      ensures Snap() == Apply(old(Snap()), CleanOut)
      ensures RoutesReady() == old(RoutesReady())
    {
      outbound.Cleanup(sockets);
    }

    method CleanupPublished()
      requires Keyed(Snap()) && Flushed(Snap())
      modifies sockets, published, published.ports
      ensures Snap() == Apply(old(Snap()), CleanIn)
      ensures RoutesReady() == old(RoutesReady())
    {
      published.Cleanup(sockets);
    }

    /** New SYNs, new published connections, and what the network delivers. */
    method Ingress(env: TickEnv)
      requires Consistent() && EnvContract(env)
      modifies sockets, outbound, published, published.ports
      ensures Snap() == AfterIngress(old(Snap()), env)
      ensures RoutesReady() == old(RoutesReady())
    {
      IngressKeeps(Snap(), env);
      ObserveSyns(env.syns);
      AttachAccepted(env.attachAt, env.accepts);
      PollInterface(env.ingress);
    }

    /** Progress and forwarding of outgoing connections ... */
    method ProcessOutbound(env: TickEnv)
      requires Consistent() && RoutesReady()
      modifies sockets, outbound
      ensures RoutesReady() == old(RoutesReady())
      ensures CurrentPlan() == old(CurrentPlan()) && Snap() == AfterOutbound(old(Snap()), env, CurrentPlan())
    {
      OutboundKeeps(Snap(), env, CurrentPlan());
      UpdateListeners(env.listenAt);
      ShuttleOutbound(env.outIos);
    }

    /** ... and of published ones. */
    method ProcessPublished(env: TickEnv)
      requires Consistent()
      modifies sockets, published
      ensures Snap() == AfterPublished(old(Snap()), env)
      ensures RoutesReady() == old(RoutesReady())
    {
      PublishedKeeps(Snap(), env);
      PollHandshakes(env.connectAt);
      ShuttlePublished(env.pubIos);
    }

    /** What goes out, and only then the removal of what is closed. */
    method Egress(env: TickEnv)
      requires Consistent() && EnvContract(env)
      modifies sockets, outbound, published, published.ports
      ensures Snap() == AfterEgress(old(Snap()), env)
      ensures RoutesReady() == old(RoutesReady())
    {
      EgressKeeps(Snap(), env);
      PollInterface(env.egress);
      CleanupOutbound();
      CleanupPublished();
    }

    /** One complete iteration. It performs exactly the operations of a tick, with
        the routing plan in force after this tick's DNS queries. */
    method Tick(env: TickEnv)
      requires Consistent() && RoutesReady() && EnvContract(env)
      modifies sockets, outbound, published, published.ports, dns.fakeDns
      ensures Consistent() && RoutesReady()
      ensures Snap() == ApplyAll(old(Snap()), TickOps(env, CurrentPlan()))
      ensures dns.fakeDns.log ==
              FakeDnsPool.ResolveAll(old(dns.fakeDns.log), Routing.NamesAsked(Routing.Readable(env.datagrams), utf8))
    {
      ghost var e := Snap();
      IngressKeeps(e, env);
      Ingress(env);
      AnswerDns(env.datagrams);
      ghost var plan := CurrentPlan();
      OutboundKeeps(Snap(), env, plan);
      ProcessOutbound(env);
      PublishedKeeps(Snap(), env);
      ProcessPublished(env);
      EgressKeeps(Snap(), env);
      Egress(env);
      TenOps(e, env, plan);
    }

    method AnswerDns(datagrams: seq<DnsWire.Bytes>)
      requires RoutesReady()
      modifies dns.fakeDns
      ensures RoutesReady()
      ensures dns.fakeDns.log ==
              FakeDnsPool.ResolveAll(old(dns.fakeDns.log), Routing.NamesAsked(Routing.Readable(datagrams), utf8))
    {
      ghost var rulesOk := config.rules.Valid();
      var replies := dns.Process(datagrams, utf8);
      assert config.rules.Valid() == rulesOk;
    }

    /** One round of `wait_for_work`: finished connect tasks are collected, and at
        most one accepted connection is taken from the channel. */
    method PollReady(connects: Handle -> Out.ConnectAnswer, woken: bool)
      requires Consistent() && Out.ConnectContract(connects)
      modifies sockets, outbound, published
      ensures Consistent()
      ensures Snap() == ApplyAll(old(Snap()), [Connects(connects)] + if woken then [Receive] else [])
    {
      ghost var e := Snap();
      WakeKeeps(e, connects);
      PollTasks(connects);
      TakeOne(woken);
      OneOrTwoOps(e, connects, woken);
    }

    method PollTasks(connects: Handle -> Out.ConnectAnswer)
      requires Keyed(Snap())
      modifies sockets, outbound
      ensures Snap() == Apply(old(Snap()), Connects(connects))
    {
      outbound.PollConnecting(sockets, connects);
    }

    method TakeOne(woken: bool)
      requires Keyed(Snap())
      modifies published
      ensures Snap() == if woken then Apply(old(Snap()), Receive) else old(Snap())
    {
      published.PollReady(woken);
    }
  }

  // ---------------------------------------------------------------- the phases of a tick, on values

  function AfterIngress(e: Engine, env: TickEnv): Engine {
    Apply(Apply(Apply(e, Observe(env.syns)), Attach(env.attachAt, env.accepts)), Poll(env.ingress))
  }

  function AfterOutbound(e: Engine, env: TickEnv, plan: Endpoint -> Route): Engine {
    Apply(Apply(e, Listeners(env.listenAt, plan)), ForwardOut(env.outIos))
  }

  function AfterPublished(e: Engine, env: TickEnv): Engine {
    Apply(Apply(e, Handshakes(env.connectAt)), ForwardIn(env.pubIos))
  }

  function AfterEgress(e: Engine, env: TickEnv): Engine {
    Apply(Apply(Apply(e, Poll(env.egress)), CleanOut), CleanIn)
  }

  lemma ConsistentIsKeyed(e: Engine)
    requires EngineInv(e)
    ensures Keyed(e)
  {
  }

  lemma IngressKeeps(e: Engine, env: TickEnv)
    requires EngineInv(e) && EnvContract(env)
    ensures var e1 := Apply(e, Observe(env.syns));
      var e2 := Apply(e1, Attach(env.attachAt, env.accepts));
      Keyed(e) && Keyed(e1) && Keyed(e2) && EngineInv(AfterIngress(e, env))
  {
    var e1 := Apply(e, Observe(env.syns));
    var e2 := Apply(e1, Attach(env.attachAt, env.accepts));
    ApplyKeeps(e, Observe(env.syns));
    ApplyKeeps(e1, Attach(env.attachAt, env.accepts));
    ApplyKeeps(e2, Poll(env.ingress));
    ConsistentIsKeyed(e);
    ConsistentIsKeyed(e1);
    ConsistentIsKeyed(e2);
  }

  lemma OutboundKeeps(e: Engine, env: TickEnv, plan: Endpoint -> Route)
    requires EngineInv(e)
    ensures Keyed(e) && Keyed(Apply(e, Listeners(env.listenAt, plan))) && EngineInv(AfterOutbound(e, env, plan))
  {
    var e1 := Apply(e, Listeners(env.listenAt, plan));
    ApplyKeeps(e, Listeners(env.listenAt, plan));
    ApplyKeeps(e1, ForwardOut(env.outIos));
    ConsistentIsKeyed(e);
    ConsistentIsKeyed(e1);
  }

  lemma PublishedKeeps(e: Engine, env: TickEnv)
    requires EngineInv(e)
    ensures Keyed(e) && Keyed(Apply(e, Handshakes(env.connectAt))) && EngineInv(AfterPublished(e, env))
  {
    var e1 := Apply(e, Handshakes(env.connectAt));
    ApplyKeeps(e, Handshakes(env.connectAt));
    ApplyKeeps(e1, ForwardIn(env.pubIos));
    ConsistentIsKeyed(e);
    ConsistentIsKeyed(e1);
  }

  lemma EgressKeeps(e: Engine, env: TickEnv)
    requires EngineInv(e) && EnvContract(env)
    ensures var e1 := Apply(e, Poll(env.egress));
      var e2 := Apply(e1, CleanOut);
      Keyed(e) && Keyed(e1) && Flushed(e1) && Keyed(e2) && Flushed(e2) && EngineInv(AfterEgress(e, env))
  {
    var e1 := Apply(e, Poll(env.egress));
    var e2 := Apply(e1, CleanOut);
    ApplyKeeps(e, Poll(env.egress));
    PollFlushes(e, env.egress);
    ApplyKeeps(e1, CleanOut);
    CleanOutStaysFlushed(e1);
    ApplyKeeps(e2, CleanIn);
    ConsistentIsKeyed(e);
    ConsistentIsKeyed(e1);
    ConsistentIsKeyed(e2);
  }

  lemma WakeKeeps(e: Engine, connects: Handle -> Out.ConnectAnswer)
    requires EngineInv(e) && Out.ConnectContract(connects)
    ensures var e1 := Apply(e, Connects(connects));
      Keyed(e) && Keyed(e1) && EngineInv(e1) && EngineInv(Apply(e1, Receive))
  {
    var e1 := Apply(e, Connects(connects));
    ApplyKeeps(e, Connects(connects));
    ApplyKeeps(e1, Receive);
    ConsistentIsKeyed(e);
    ConsistentIsKeyed(e1);
  }

  lemma InitialIsConsistent()
    ensures EngineInv(INITIAL)
  {
    assert PubP.Waiting(Pub.EMPTY) == [];
  }

  lemma ThreeOps(e: Engine, a: Op, b: Op, c: Op)
    ensures ApplyAll(e, [a, b, c]) == Apply(Apply(Apply(e, a), b), c)
  {
    var ops := [a, b, c];
    assert ops[1..] == [b, c] && [b, c][1..] == [c] && [c][1..] == [];
    assert ApplyAll(Apply(Apply(e, a), b), [c]) == Apply(Apply(Apply(e, a), b), c);
  }

  lemma OneOrTwoOps(e: Engine, connects: Handle -> Out.ConnectAnswer, woken: bool)
    ensures ApplyAll(e, [Connects(connects)] + if woken then [Receive] else []) ==
      if woken then Apply(Apply(e, Connects(connects)), Receive) else Apply(e, Connects(connects))
  {
    var ops := [Connects(connects)] + if woken then [Receive] else [];
    if woken {
      assert ops == [Connects(connects), Receive] && ops[1..] == [Receive] && [Receive][1..] == [];
      assert ApplyAll(Apply(e, Connects(connects)), [Receive]) == Apply(Apply(e, Connects(connects)), Receive);
    } else {
      assert ops == [Connects(connects)] && ops[1..] == [];
    }
  }

  lemma {:induction false} ApplyInTwo(e: Engine, first: seq<Op>, second: seq<Op>)
    ensures ApplyAll(e, first + second) == ApplyAll(ApplyAll(e, first), second)
    decreases |first|
  {
    if first == [] {
      assert first + second == second;
    } else {
      TailOf(first, second);
      ApplyInTwo(Apply(e, first[0]), first[1..], second);
    }
  }

  lemma TwoOps(e: Engine, a: Op, b: Op)
    ensures ApplyAll(e, [a, b]) == Apply(Apply(e, a), b)
  {
    var ops := [a, b];
    assert ops[1..] == [b] && [b][1..] == [];
    assert ApplyAll(Apply(e, a), [b]) == Apply(Apply(e, a), b);
  }

  lemma TenOps(e: Engine, env: TickEnv, plan: Endpoint -> Route)
    ensures ApplyAll(e, TickOps(env, plan))
         == AfterEgress(AfterPublished(AfterOutbound(AfterIngress(e, env), env, plan), env), env)
  {
    var first := [Observe(env.syns), Attach(env.attachAt, env.accepts), Poll(env.ingress)];
    var second := [Listeners(env.listenAt, plan), ForwardOut(env.outIos)];
    var third := [Handshakes(env.connectAt), ForwardIn(env.pubIos)];
    var last := [Poll(env.egress), CleanOut, CleanIn];
    var e1 := AfterIngress(e, env);
    var e2 := AfterOutbound(e1, env, plan);
    ThreeOps(e, first[0], first[1], first[2]);
    TwoOps(e1, second[0], second[1]);
    TwoOps(e2, third[0], third[1]);
    ThreeOps(AfterPublished(e2, env), last[0], last[1], last[2]);
    assert TickOps(env, plan) == first + (second + (third + last));
    ApplyInTwo(e, first, second + (third + last));
    ApplyInTwo(e1, second, third + last);
    ApplyInTwo(e2, third, last);
  }

  // ---------------------------------------------------------------- schedules

  /** What happens between two ticks, or one tick. */
  datatype Event = Ticked(env: TickEnv, plan: Endpoint -> Route) | Between(op: Op)

  ghost predicate Legal(ev: Event) {
    match ev
    case Ticked(env, _) => EnvContract(env)
    case Between(op) => Allowed(op) && (op.Arrive? || op.Receive? || op.Connects?)
  }

  function OpsOf(ev: Event): seq<Op> {
    match ev
    case Ticked(env, plan) => TickOps(env, plan)
    case Between(op) => [op]
  }

  function Schedule(events: seq<Event>): seq<Op> {
    if events == [] then [] else Schedule(events[..|events| - 1]) + OpsOf(events[|events| - 1])
  }

  /** Whatever happens between ticks, a schedule of ticks has both clean-ups
      directly behind a poll and uses only what the environment allows. */
  lemma {:induction false} SchedulesAreTickOrdered(events: seq<Event>)
    requires forall ev | ev in events :: Legal(ev)
    ensures TickOrdered(Schedule(events))
    ensures forall op | op in Schedule(events) :: Allowed(op)
  {
    if events != [] {
      var front, last := events[..|events| - 1], events[|events| - 1];
      SchedulesAreTickOrdered(front);
      assert last in events;
      AppendOrdered(Schedule(front), last);
    }
  }

  lemma AppendOrdered(ops: seq<Op>, last: Event)
    requires TickOrdered(ops) && Legal(last)
    ensures TickOrdered(ops + OpsOf(last))
    ensures forall op | op in OpsOf(last) :: Allowed(op)
  {
    var more := OpsOf(last);
    var all := ops + more;
    forall i | 0 <= i < |all|
      ensures OrderedAt(all, i)
    {
      if i < |ops| {
        assert OrderedAt(ops, i);
      } else {
        assert all[i] == more[i - |ops|];
        if last.Ticked? && i - |ops| >= 8 {
          assert all[i - 1] == more[i - 1 - |ops|] && all[i - 2] == more[i - 2 - |ops|];
        }
      }
    }
  }

  /** The states an operation sequence goes through. */
  function TraceOf(e: Engine, ops: seq<Op>): (trace: seq<Engine>)
    ensures |trace| == |ops| + 1 && trace[0] == e
    decreases |ops|
  {
    if ops == [] then [e] else [e] + TraceOf(Apply(e, ops[0]), ops[1..])
  }

  lemma {:induction false} TraceSteps(e: Engine, ops: seq<Op>, i: nat)
    requires i < |ops|
    ensures TraceOf(e, ops)[i + 1] == Apply(TraceOf(e, ops)[i], ops[i])
    ensures TraceOf(e, ops)[|ops|] == ApplyAll(e, ops)
    decreases |ops|
  {
    if |ops| > 1 {
      TraceSteps(Apply(e, ops[0]), ops[1..], if i > 0 then i - 1 else 0);
    } else {
      assert ops[1..] == [];
    }
  }

  /** Whatever the schedule of ticks, wake-ups, network behaviour and I/O answers:
      the engine goes through a tick-ordered run and is consistent at its end. */
  lemma EverySchedule(events: seq<Event>) returns (trace: seq<Engine>)
    requires forall ev | ev in events :: Legal(ev)
    ensures IsRun(trace, Schedule(events)) && TickOrdered(Schedule(events))
    ensures trace[|trace| - 1] == ApplyAll(INITIAL, Schedule(events))
    ensures EngineInv(ApplyAll(INITIAL, Schedule(events)))
  {
    var ops := Schedule(events);
    SchedulesAreTickOrdered(events);
    trace := TraceOf(INITIAL, ops);
    forall i | 0 <= i < |ops|
      ensures Allowed(ops[i]) && trace[i + 1] == Apply(trace[i], ops[i])
    {
      TraceSteps(INITIAL, ops, i);
    }
    if ops != [] {
      TraceSteps(INITIAL, ops, 0);
    }
    RunsStayConsistent(trace, ops, |ops|);
  }
}

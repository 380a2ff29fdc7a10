/**
 * The forwarding engine as a state machine: both components over one socket
 * set, one operation per source-level pass. Runs are sequences of operations.
 */
module Engines {
  import opened Common
  import opened Targets
  import opened Sockets
  import Out = Outbound
  import Pub = Published
  import OutP = OutboundProofs
  import PubP = PublishedProofs
  import Ports

  datatype Engine = Engine(outgoing: Out.Table, published: Pub.Table, socks: Socks, polls: nat)

  const INITIAL: Engine := Engine(Out.EMPTY, Pub.EMPTY, map[], 0)

  datatype Op =
    | Observe(syns: seq<Out.Syn>)
    | Arrive(namespacePort: u16)
    | Receive
    | Attach(now: nat, accepts: Pub.Accepted -> bool)
    | Poll(net: Net)
    | Listeners(now: nat, plan: Endpoint -> Route)
    | Connects(connects: Handle -> Out.ConnectAnswer)
    | ForwardOut(outIos: Handle -> Out.Io)
    | Handshakes(now: nat)
    | ForwardIn(pubIos: Handle -> Pub.Io)
    | CleanOut
    | CleanIn

  /** Every connection has a socket. */
  predicate Keyed(e: Engine) {
    e.outgoing.states.Keys <= e.socks.Keys && e.published.states.Keys <= e.socks.Keys && Ports.InRange(e.published.next)
  }

  function WithOut(e: Engine, r: (Out.Table, Socks)): Engine {
    e.(outgoing := r.0, socks := r.1)
  }

  function WithPub(e: Engine, r: (Pub.Table, Socks)): Engine {
    e.(published := r.0, socks := r.1)
  }

  function Apply(e: Engine, op: Op): Engine {
    if !Keyed(e) then e else
      match op
      case Observe(syns) => WithOut(e, Out.ObserveSyns(e.outgoing, e.socks, syns))
      case Arrive(namespacePort) => e.(published := Pub.Arrive(e.published, namespacePort))
      case Receive => e.(published := Pub.Receive(e.published))
      case Attach(now, accepts) => WithPub(e, Pub.AttachAccepted(e.published, e.socks, now, accepts))
      case Poll(net) => e.(socks := PollAll(e.socks, net), polls := e.polls + 1)
      case Listeners(now, plan) => WithOut(e, Out.UpdateListeners(e.outgoing, e.socks, now, e.polls, plan))
      case Connects(connects) => WithOut(e, Out.PollConnecting(e.outgoing, e.socks, connects, e.polls))
      case ForwardOut(ios) => WithOut(e, Out.Shuttle(e.outgoing, e.socks, ios, e.polls))
      case Handshakes(now) => WithPub(e, Pub.PollConnecting(e.published, e.socks, now, e.polls))
      case ForwardIn(ios) => WithPub(e, Pub.Shuttle(e.published, e.socks, ios, e.polls))
      case CleanOut => WithOut(e, Out.Cleanup(e.outgoing, e.socks))
      case CleanIn => WithPub(e, Pub.Cleanup(e.published, e.socks))
  }

  /** What is assumed of the network and of connect tasks. */
  ghost predicate Allowed(op: Op) {
    && (op.Poll? ==> NetContract(op.net))
    && (op.Connects? ==> Out.ConnectContract(op.connects))
  }

  /** Both components are consistent, share no handle, and own every socket. */
  ghost predicate EngineInv(e: Engine) {
    && OutP.TableInv(e.outgoing, e.socks, e.polls)
    && PubP.TableInv(e.published, e.socks, e.polls)
    && e.outgoing.states.Keys !! e.published.states.Keys
    && e.socks.Keys == e.outgoing.states.Keys + e.published.states.Keys
  }

  // ---------------------------------------------------------------- one step

  /** The outgoing component changed and left the other's sockets alone. */
  lemma OutStep(e: Engine, r: (Out.Table, Socks))
    requires EngineInv(e) && OutP.TableInv(r.0, r.1, e.polls)
    requires r.0.states.Keys !! e.published.states.Keys
    requires r.1.Keys == r.0.states.Keys + e.published.states.Keys
    requires forall h | h in e.published.states :: r.1[h] == e.socks[h]
    ensures EngineInv(WithOut(e, r))
  {
  }

  lemma InStep(e: Engine, r: (Pub.Table, Socks))
    requires EngineInv(e) && PubP.TableInv(r.0, r.1, e.polls)
    requires r.0.states.Keys !! e.outgoing.states.Keys
    requires r.1.Keys == e.outgoing.states.Keys + r.0.states.Keys
    requires forall h | h in e.outgoing.states :: r.1[h] == e.socks[h]
    ensures EngineInv(WithPub(e, r))
  {
  }

  lemma ObserveKeeps(e: Engine, syns: seq<Out.Syn>)
    requires EngineInv(e)
    ensures EngineInv(Apply(e, Observe(syns)))
  {
    OutP.ObserveSynsKeeps(e.outgoing, e.socks, syns, e.polls);
    OutStep(e, Out.ObserveSyns(e.outgoing, e.socks, syns));
  }

  lemma ListenersKeep(e: Engine, now: nat, plan: Endpoint -> Route)
    requires EngineInv(e)
    ensures EngineInv(Apply(e, Listeners(now, plan)))
  {
    OutP.UpdateListenersKeeps(e.outgoing, e.socks, now, e.polls, plan);
    OutStep(e, Out.UpdateListeners(e.outgoing, e.socks, now, e.polls, plan));
  }

  lemma ConnectsKeep(e: Engine, connects: Handle -> Out.ConnectAnswer)
    requires EngineInv(e) && Out.ConnectContract(connects)
    ensures EngineInv(Apply(e, Connects(connects)))
  {
    OutP.PollConnectingKeeps(e.outgoing, e.socks, connects, e.polls);
    OutStep(e, Out.PollConnecting(e.outgoing, e.socks, connects, e.polls));
  }

  lemma ForwardOutKeeps(e: Engine, ios: Handle -> Out.Io)
    requires EngineInv(e)
    ensures EngineInv(Apply(e, ForwardOut(ios)))
  {
    OutP.ShuttleKeeps(e.outgoing, e.socks, ios, e.polls);
    OutStep(e, Out.Shuttle(e.outgoing, e.socks, ios, e.polls));
  }

  lemma CleanOutKeeps(e: Engine)
    requires EngineInv(e)
    ensures EngineInv(Apply(e, CleanOut))
  {
    OutP.CleanupKeeps(e.outgoing, e.socks, e.polls);
    OutStep(e, Out.Cleanup(e.outgoing, e.socks));
  }

  lemma ArrivalsKeep(e: Engine, namespacePort: u16)
    requires EngineInv(e)
    ensures EngineInv(Apply(e, Arrive(namespacePort))) && EngineInv(Apply(e, Receive))
  {
    PubP.ArriveKeeps(e.published, namespacePort);
    PubP.ReceiveKeeps(e.published);
  }

  lemma AttachKeeps(e: Engine, now: nat, accepts: Pub.Accepted -> bool)
    requires EngineInv(e)
    ensures EngineInv(Apply(e, Attach(now, accepts)))
  {
    PubP.AttachAcceptedKeeps(e.published, e.socks, now, accepts, e.polls);
    InStep(e, Pub.AttachAccepted(e.published, e.socks, now, accepts));
  }

  lemma HandshakesKeep(e: Engine, now: nat)
    requires EngineInv(e)
    ensures EngineInv(Apply(e, Handshakes(now)))
  {
    PubP.PollConnectingKeeps(e.published, e.socks, now, e.polls);
    InStep(e, Pub.PollConnecting(e.published, e.socks, now, e.polls));
  }

  lemma ForwardInKeeps(e: Engine, ios: Handle -> Pub.Io)
    requires EngineInv(e)
    ensures EngineInv(Apply(e, ForwardIn(ios)))
  {
    PubP.ShuttleKeeps(e.published, e.socks, ios, e.polls);
    InStep(e, Pub.Shuttle(e.published, e.socks, ios, e.polls));
  }

  lemma CleanInKeeps(e: Engine)
    requires EngineInv(e)
    ensures EngineInv(Apply(e, CleanIn))
  {
    PubP.CleanupKeeps(e.published, e.socks, e.polls);
    InStep(e, Pub.Cleanup(e.published, e.socks));
  }

  lemma PollKeeps(e: Engine, net: Net)
    requires EngineInv(e) && NetContract(net)
    ensures EngineInv(Apply(e, Poll(net)))
  {
    PollKeepsOut(e, net);
    PollKeepsIn(e, net);
    assert PollAll(e.socks, net).Keys == e.socks.Keys;
    Polled(e, Engine(e.outgoing, e.published, PollAll(e.socks, net), e.polls + 1));
  }

  lemma PollKeepsOut(e: Engine, net: Net)
    requires EngineInv(e) && NetContract(net)
    ensures OutP.TableInv(e.outgoing, PollAll(e.socks, net), e.polls + 1)
  {
    OutP.PollTableKeeps(e.outgoing, e.socks, net, e.polls);
  }

  lemma PollKeepsIn(e: Engine, net: Net)
    requires EngineInv(e) && NetContract(net)
    ensures PubP.TableInv(e.published, PollAll(e.socks, net), e.polls + 1)
  {
    PubP.PollTableKeeps(e.published, e.socks, net, e.polls);
  }

  lemma Polled(e: Engine, f: Engine)
    requires EngineInv(e) && f == Engine(e.outgoing, e.published, f.socks, f.polls) && f.socks.Keys == e.socks.Keys
    requires OutP.TableInv(e.outgoing, f.socks, f.polls) && PubP.TableInv(e.published, f.socks, f.polls)
    ensures EngineInv(f)
  {
  }

  /** Every operation, in any order, keeps the engine consistent. */
  lemma ApplyKeeps(e: Engine, op: Op)
    requires EngineInv(e) && Allowed(op)
    ensures EngineInv(Apply(e, op))
  {
    match op
    case Observe(syns) => ObserveKeeps(e, syns);
    case Arrive(namespacePort) => ArrivalsKeep(e, namespacePort);
    case Receive => ArrivalsKeep(e, 0);
    case Attach(now, accepts) => AttachKeeps(e, now, accepts);
    case Poll(net) => PollKeeps(e, net);
    case Listeners(now, plan) => ListenersKeep(e, now, plan);
    case Connects(connects) => ConnectsKeep(e, connects);
    case ForwardOut(ios) => ForwardOutKeeps(e, ios);
    case Handshakes(now) => HandshakesKeep(e, now);
    case ForwardIn(ios) => ForwardInKeeps(e, ios);
    case CleanOut => CleanOutKeeps(e);
    case CleanIn => CleanInKeeps(e);
  }

  // ---------------------------------------------------------------- progress

  /** Connections only move forward, leave only from Closing and only by a
      clean-up, and start at the first state in an unused slot. */
  ghost predicate OutProgress(e: Engine, op: Op, f: Engine) {
    && (forall h | h in e.outgoing.states ::
          if h in f.outgoing.states then OutP.Advances(e.outgoing.states[h], f.outgoing.states[h], e.polls)
          else e.outgoing.states[h].Closing? && op.CleanOut?)
    && (forall h | h in f.outgoing.states && h !in e.outgoing.states ::
          f.outgoing.states[h].Listening? && op.Observe? && h !in e.socks)
  }

  ghost predicate InProgress(e: Engine, op: Op, f: Engine) {
    && (forall h | h in e.published.states ::
          if h in f.published.states then PubP.Advances(e.published.states[h], f.published.states[h], e.polls)
          else e.published.states[h].Closing? && op.CleanIn?)
    && (forall h | h in f.published.states && h !in e.published.states ::
          f.published.states[h].Connecting? && op.Attach? && h !in e.socks)
  }

  /** A pass that keeps all connections and moves them forward. */
  lemma OutPassProgresses(e: Engine, op: Op, f: Engine)
    requires OutP.OnlyAdvances(e.outgoing, f.outgoing, e.polls)
    ensures OutProgress(e, op, f)
  {
  }

  lemma InPassProgresses(e: Engine, op: Op, f: Engine)
    requires PubP.OnlyAdvances(e.published, f.published, e.polls)
    ensures InProgress(e, op, f)
  {
  }

  lemma ObserveProgresses(e: Engine, syns: seq<Out.Syn>)
    requires EngineInv(e)
    ensures OutProgress(e, Observe(syns), Apply(e, Observe(syns)))
  {
    OutP.ObserveSynsKeeps(e.outgoing, e.socks, syns, e.polls);
  }

  lemma CleanOutProgresses(e: Engine)
    requires EngineInv(e)
    ensures OutProgress(e, CleanOut, Apply(e, CleanOut))
  {
    OutP.CleanupKeeps(e.outgoing, e.socks, e.polls);
  }

  lemma AttachProgresses(e: Engine, now: nat, accepts: Pub.Accepted -> bool)
    requires EngineInv(e)
    ensures InProgress(e, Attach(now, accepts), Apply(e, Attach(now, accepts)))
  {
    PubP.AttachAcceptedKeeps(e.published, e.socks, now, accepts, e.polls);
  }

  lemma CleanInProgresses(e: Engine)
    requires EngineInv(e)
    ensures InProgress(e, CleanIn, Apply(e, CleanIn))
  {
    PubP.CleanupKeeps(e.published, e.socks, e.polls);
  }

  lemma ListenersProgress(e: Engine, now: nat, plan: Endpoint -> Route)
    requires EngineInv(e)
    ensures OutProgress(e, Listeners(now, plan), Apply(e, Listeners(now, plan)))
  {
    OutP.UpdateListenersKeeps(e.outgoing, e.socks, now, e.polls, plan);
    OutPassProgresses(e, Listeners(now, plan), Apply(e, Listeners(now, plan)));
  }

  lemma ConnectsProgress(e: Engine, connects: Handle -> Out.ConnectAnswer)
    requires EngineInv(e) && Out.ConnectContract(connects)
    ensures OutProgress(e, Connects(connects), Apply(e, Connects(connects)))
  {
    OutP.PollConnectingKeeps(e.outgoing, e.socks, connects, e.polls);
    OutPassProgresses(e, Connects(connects), Apply(e, Connects(connects)));
  }

  lemma ForwardOutProgresses(e: Engine, ios: Handle -> Out.Io)
    requires EngineInv(e)
    ensures OutProgress(e, ForwardOut(ios), Apply(e, ForwardOut(ios)))
  {
    OutP.ShuttleKeeps(e.outgoing, e.socks, ios, e.polls);
    OutPassProgresses(e, ForwardOut(ios), Apply(e, ForwardOut(ios)));
  }

  lemma HandshakesProgress(e: Engine, now: nat)
    requires EngineInv(e)
    ensures InProgress(e, Handshakes(now), Apply(e, Handshakes(now)))
  {
    PubP.PollConnectingKeeps(e.published, e.socks, now, e.polls);
    InPassProgresses(e, Handshakes(now), Apply(e, Handshakes(now)));
  }

  lemma ForwardInProgresses(e: Engine, ios: Handle -> Pub.Io)
    requires EngineInv(e)
    ensures InProgress(e, ForwardIn(ios), Apply(e, ForwardIn(ios)))
  {
    PubP.ShuttleKeeps(e.published, e.socks, ios, e.polls);
    InPassProgresses(e, ForwardIn(ios), Apply(e, ForwardIn(ios)));
  }

  /** Operations that leave a component's states alone. */
  lemma OutUnchangedProgresses(e: Engine, op: Op)
    requires !(op.Observe? || op.Listeners? || op.Connects? || op.ForwardOut? || op.CleanOut?)
    ensures OutProgress(e, op, Apply(e, op))
  {
    assert Apply(e, op).outgoing == e.outgoing;
  }

  lemma InUnchangedProgresses(e: Engine, op: Op)
    requires !(op.Attach? || op.Handshakes? || op.ForwardIn? || op.CleanIn?)
    ensures InProgress(e, op, Apply(e, op))
  {
    assert Apply(e, op).published.states == e.published.states;
  }

  lemma OutgoingProgresses(e: Engine, op: Op)
    requires EngineInv(e) && Allowed(op)
    ensures OutProgress(e, op, Apply(e, op))
  {
    match op
    case Observe(syns) => ObserveProgresses(e, syns);
    case Listeners(now, plan) => ListenersProgress(e, now, plan);
    case Connects(connects) => ConnectsProgress(e, connects);
    case ForwardOut(ios) => ForwardOutProgresses(e, ios);
    case CleanOut => CleanOutProgresses(e);
    case _ => OutUnchangedProgresses(e, op);
  }

  lemma PublishedProgresses(e: Engine, op: Op)
    requires EngineInv(e) && Allowed(op)
    ensures InProgress(e, op, Apply(e, op))
  {
    match op
    case Attach(now, accepts) => AttachProgresses(e, now, accepts);
    case Handshakes(now) => HandshakesProgress(e, now);
    case ForwardIn(ios) => ForwardInProgresses(e, ios);
    case CleanIn => CleanInProgresses(e);
    case _ => InUnchangedProgresses(e, op);
  }

  // ---------------------------------------------------------------- runs

  ghost predicate IsRun(trace: seq<Engine>, ops: seq<Op>) {
    && |trace| == |ops| + 1 && trace[0] == INITIAL
    && forall i {:trigger StepAt(trace, ops, i)} | 0 <= i < |ops| :: StepAt(trace, ops, i)
  }

  ghost predicate StepAt(trace: seq<Engine>, ops: seq<Op>, i: int)
    requires |trace| == |ops| + 1 && 0 <= i < |ops|
  {
    Allowed(ops[i]) && trace[i + 1] == Apply(trace[i], ops[i])
  }

  /** In every run, after every operation: all indexes agree, no byte is lost or
      reordered, all ports and arrivals are accounted for, every closing socket
      is dead. */
  lemma {:induction false} RunsStayConsistent(trace: seq<Engine>, ops: seq<Op>, k: nat)
    requires IsRun(trace, ops) && k <= |ops|
    ensures EngineInv(trace[k])
  {
    if k > 0 {
      RunsStayConsistent(trace, ops, k - 1);
      assert StepAt(trace, ops, k - 1);
      ApplyKeeps(trace[k - 1], ops[k - 1]);
    }
  }

  lemma RunsProgress(trace: seq<Engine>, ops: seq<Op>, k: nat)
    requires IsRun(trace, ops) && k < |ops|
    ensures OutProgress(trace[k], ops[k], trace[k + 1]) && InProgress(trace[k], ops[k], trace[k + 1])
  {
    RunsStayConsistent(trace, ops, k);
    assert StepAt(trace, ops, k);
    OutgoingProgresses(trace[k], ops[k]);
    PublishedProgresses(trace[k], ops[k]);
  }

  /** The order a tick guarantees: both clean-ups follow the second poll directly. */
  ghost predicate TickOrdered(ops: seq<Op>) {
    forall i | 0 <= i < |ops| :: OrderedAt(ops, i)
  }

  ghost predicate OrderedAt(ops: seq<Op>, i: nat)
    requires i < |ops|
  {
    && (ops[i].CleanOut? ==> i >= 1 && ops[i - 1].Poll?)
    && (ops[i].CleanIn? ==> i >= 2 && ops[i - 1].CleanOut? && ops[i - 2].Poll?)
  }

  ghost predicate Flushed(e: Engine) {
    && (forall h | h in e.outgoing.states && e.outgoing.states[h].Closing? :: e.outgoing.states[h].since < e.polls)
    && (forall h | h in e.published.states && e.published.states[h].Closing? :: e.published.states[h].since < e.polls)
  }

  lemma PollFlushes(e: Engine, net: Net)
    requires EngineInv(e)
    ensures Flushed(Apply(e, Poll(net)))
  {
    forall h | h in e.outgoing.states && e.outgoing.states[h].Closing?
      ensures e.outgoing.states[h].since <= e.polls
    {
      assert OutP.Consistent(e.outgoing.states[h], e.socks[h], e.polls);
    }
    forall h | h in e.published.states && e.published.states[h].Closing?
      ensures e.published.states[h].since <= e.polls
    {
      assert PubP.Consistent(e.published.states[h], e.socks[h], e.polls);
    }
  }

  lemma CleanOutStaysFlushed(e: Engine)
    requires EngineInv(e) && Flushed(e)
    ensures Flushed(Apply(e, CleanOut))
  {
    OutP.CleanupKeeps(e.outgoing, e.socks, e.polls);
  }

  /** At every clean-up of a tick-ordered run, each closing connection has been
      through a poll since it was marked. */
  lemma CleanupFindsFlushed(trace: seq<Engine>, ops: seq<Op>, i: nat)
    requires IsRun(trace, ops) && TickOrdered(ops) && i < |ops| && (ops[i].CleanOut? || ops[i].CleanIn?)
    ensures Flushed(trace[i])
  {
    assert OrderedAt(ops, i);
    if ops[i].CleanOut? {
      RunsStayConsistent(trace, ops, i - 1);
      assert StepAt(trace, ops, i - 1);
      PollFlushes(trace[i - 1], ops[i - 1].net);
    } else {
      RunsStayConsistent(trace, ops, i - 2);
      assert StepAt(trace, ops, i - 2) && StepAt(trace, ops, i - 1);
      PollFlushes(trace[i - 2], ops[i - 2].net);
      RunsStayConsistent(trace, ops, i - 1);
      CleanOutStaysFlushed(trace[i - 1]);
    }
  }

  /** Polls are counted. */
  lemma {:induction false} PollHappened(trace: seq<Engine>, ops: seq<Op>, j: nat, i: nat)
    requires IsRun(trace, ops) && j <= i <= |ops| && trace[j].polls < trace[i].polls
    ensures exists k :: j <= k < i && ops[k].Poll?
  {
    assert StepAt(trace, ops, i - 1);
    if !ops[i - 1].Poll? {
      PollHappened(trace, ops, j, i - 1);
    }
  }

  lemma {:induction false} OutClosingStays(trace: seq<Engine>, ops: seq<Op>, j: nat, i: nat, h: Handle)
    requires IsRun(trace, ops) && j <= i <= |ops|
    requires forall k | j <= k <= i :: h in trace[k].outgoing.states
    requires trace[j].outgoing.states[h].Closing?
    ensures trace[i].outgoing.states[h] == trace[j].outgoing.states[h]
  {
    if j < i {
      OutClosingStays(trace, ops, j, i - 1, h);
      RunsProgress(trace, ops, i - 1);
    }
  }

  lemma {:induction false} InClosingStays(trace: seq<Engine>, ops: seq<Op>, j: nat, i: nat, h: Handle)
    requires IsRun(trace, ops) && j <= i <= |ops|
    requires forall k | j <= k <= i :: h in trace[k].published.states
    requires trace[j].published.states[h].Closing?
    ensures trace[i].published.states[h] == trace[j].published.states[h]
  {
    if j < i {
      InClosingStays(trace, ops, j, i - 1, h);
      RunsProgress(trace, ops, i - 1);
    }
  }

  /** In every tick-ordered run, what is removed was closing and has been polled
      since. */
  lemma RemovedWereFlushed(trace: seq<Engine>, ops: seq<Op>, i: nat, h: Handle)
    requires IsRun(trace, ops) && TickOrdered(ops) && i < |ops|
    ensures h in trace[i].outgoing.states && h !in trace[i + 1].outgoing.states ==>
      trace[i].outgoing.states[h].Closing? && trace[i].outgoing.states[h].since < trace[i].polls
    ensures h in trace[i].published.states && h !in trace[i + 1].published.states ==>
      trace[i].published.states[h].Closing? && trace[i].published.states[h].since < trace[i].polls
  {
    RunsStayConsistent(trace, ops, i);
    RunsProgress(trace, ops, i);
    if ops[i].CleanOut? || ops[i].CleanIn? {
      CleanupFindsFlushed(trace, ops, i);
    }
  }

  /** At least one poll lies strictly between the step that marks an outgoing
      connection as closing and the step that removes it. */
  lemma OutPollBeforeRemoval(trace: seq<Engine>, ops: seq<Op>, j: nat, i: nat, h: Handle)
    requires IsRun(trace, ops) && TickOrdered(ops) && j < i < |ops|
    requires h in trace[j].outgoing.states && !trace[j].outgoing.states[h].Closing?
    requires forall k | j < k <= i :: h in trace[k].outgoing.states
    requires trace[j + 1].outgoing.states[h].Closing? && h !in trace[i + 1].outgoing.states
    ensures exists k :: j < k < i && ops[k].Poll?
  {
    RunsProgress(trace, ops, j);
    OutClosingStays(trace, ops, j + 1, i, h);
    RemovedWereFlushed(trace, ops, i, h);
    PollsOf(trace, ops, j);
    PollHappened(trace, ops, j + 1, i);
  }

  lemma InPollBeforeRemoval(trace: seq<Engine>, ops: seq<Op>, j: nat, i: nat, h: Handle)
    requires IsRun(trace, ops) && TickOrdered(ops) && j < i < |ops|
    requires h in trace[j].published.states && !trace[j].published.states[h].Closing?
    requires forall k | j < k <= i :: h in trace[k].published.states
    requires trace[j + 1].published.states[h].Closing? && h !in trace[i + 1].published.states
    ensures exists k :: j < k < i && ops[k].Poll?
  {
    RunsProgress(trace, ops, j);
    InClosingStays(trace, ops, j + 1, i, h);
    RemovedWereFlushed(trace, ops, i, h);
    PollsOf(trace, ops, j);
    PollHappened(trace, ops, j + 1, i);
  }

  /** Only a poll counts as one, and a poll changes no connection state. */
  lemma PollsOf(trace: seq<Engine>, ops: seq<Op>, j: nat)
    requires IsRun(trace, ops) && j < |ops|
    ensures trace[j + 1].polls == trace[j].polls ||
      (trace[j + 1].outgoing == trace[j].outgoing && trace[j + 1].published == trace[j].published)
  {
    assert StepAt(trace, ops, j);
  }
}

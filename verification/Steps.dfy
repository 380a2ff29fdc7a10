/**
 * What an operation of the engine does to one connection: only polls and the
 * passes of its own component touch it, and only a clean-up removes it.
 */
module Steps {
  import opened Common
  import opened Targets
  import opened Sockets
  import opened Engines
  import Out = Outbound
  import OutP = OutboundProofs
  import Pub = Published
  import PubP = PublishedProofs

  // ---------------------------------------------------------------- outgoing connections

  function OutNext(op: Op, c: Out.Conn, s: Socket, h: Handle, polls: nat): (Out.Conn, Socket) {
    match op
    case Listeners(now, plan) => Out.ListenerStep(c, s, now, polls, plan)
    case Connects(connects) => Out.ConnectStep(c, s, connects(h), polls)
    case ForwardOut(ios) => Out.ShuttleStep(c, s, ios(h), polls)
    case Poll(net) => (c, net(h, s))
    case _ => (c, s)
  }

  /** The connection h has gone from e to f by the operation. */
  ghost predicate OutGoes(e: Engine, op: Op, f: Engine, h: Handle)
    requires h in e.outgoing.states && h in e.socks
  {
    && (h !in f.outgoing.states <==> op.CleanOut? && e.outgoing.states[h].Closing?)
    && (h in f.outgoing.states ==>
          h in f.socks && (f.outgoing.states[h], f.socks[h])
                          == OutNext(op, e.outgoing.states[h], e.socks[h], h, e.polls))
  }

  lemma OutUnderObserve(e: Engine, syns: seq<Out.Syn>, h: Handle)
    requires EngineInv(e) && h in e.outgoing.states
    ensures OutGoes(e, Observe(syns), Apply(e, Observe(syns)), h)
  {
    OutP.ObserveSynsKeeps(e.outgoing, e.socks, syns, e.polls);
  }

  lemma OutUnderAttach(e: Engine, now: nat, accepts: Pub.Accepted -> bool, h: Handle)
    requires EngineInv(e) && h in e.outgoing.states
    ensures OutGoes(e, Attach(now, accepts), Apply(e, Attach(now, accepts)), h)
  {
    PubP.AttachAcceptedKeeps(e.published, e.socks, now, accepts, e.polls);
  }

  lemma OutUnderOwn(e: Engine, op: Op, h: Handle)
    requires Keyed(e) && h in e.outgoing.states && (op.Listeners? || op.Connects? || op.ForwardOut? || op.Poll?)
    ensures OutGoes(e, op, Apply(e, op), h)
  {
  }

  lemma OutUnderOther(e: Engine, op: Op, h: Handle)
    requires Keyed(e) && h in e.outgoing.states && h !in e.published.states
    requires op.Handshakes? || op.ForwardIn? || op.CleanIn? || op.CleanOut? || op.Arrive? || op.Receive?
    ensures OutGoes(e, op, Apply(e, op), h)
  {
  }

  lemma OutUnder(e: Engine, op: Op, h: Handle)
    requires EngineInv(e) && h in e.outgoing.states
    ensures OutGoes(e, op, Apply(e, op), h)
  {
    match op
    case Observe(syns) => OutUnderObserve(e, syns, h);
    case Attach(now, accepts) => OutUnderAttach(e, now, accepts, h);
    case Listeners(_, _) => OutUnderOwn(e, op, h);
    case Connects(_) => OutUnderOwn(e, op, h);
    case ForwardOut(_) => OutUnderOwn(e, op, h);
    case Poll(_) => OutUnderOwn(e, op, h);
    case _ => OutUnderOther(e, op, h);
  }

  // ---------------------------------------------------------------- published connections

  function InNext(op: Op, c: Pub.Conn, s: Socket, h: Handle, polls: nat): (Pub.Conn, Socket) {
    match op
    case Handshakes(now) => Pub.ConnectStep(c, s, now, polls)
    case ForwardIn(ios) => Pub.ShuttleStep(c, s, ios(h), polls)
    case Poll(net) => (c, net(h, s))
    case _ => (c, s)
  }

  ghost predicate InGoes(e: Engine, op: Op, f: Engine, h: Handle)
    requires h in e.published.states && h in e.socks
  {
    && (h !in f.published.states <==> op.CleanIn? && e.published.states[h].Closing?)
    && (h in f.published.states ==>
          h in f.socks && (f.published.states[h], f.socks[h])
                          == InNext(op, e.published.states[h], e.socks[h], h, e.polls))
  }

  lemma InUnderObserve(e: Engine, syns: seq<Out.Syn>, h: Handle)
    requires EngineInv(e) && h in e.published.states
    ensures InGoes(e, Observe(syns), Apply(e, Observe(syns)), h)
  {
    OutP.ObserveSynsKeeps(e.outgoing, e.socks, syns, e.polls);
  }

  lemma InUnderAttach(e: Engine, now: nat, accepts: Pub.Accepted -> bool, h: Handle)
    requires EngineInv(e) && h in e.published.states
    ensures InGoes(e, Attach(now, accepts), Apply(e, Attach(now, accepts)), h)
  {
    PubP.AttachAcceptedKeeps(e.published, e.socks, now, accepts, e.polls);
  }

  lemma InUnderOwn(e: Engine, op: Op, h: Handle)
    requires Keyed(e) && h in e.published.states && (op.Handshakes? || op.ForwardIn? || op.Poll?)
    ensures InGoes(e, op, Apply(e, op), h)
  {
  }

  lemma InUnderOther(e: Engine, op: Op, h: Handle)
    requires Keyed(e) && h in e.published.states && h !in e.outgoing.states
    requires op.Listeners? || op.Connects? || op.ForwardOut? || op.CleanIn? || op.CleanOut? || op.Arrive? || op.Receive?
    ensures InGoes(e, op, Apply(e, op), h)
  {
  }

  lemma InUnder(e: Engine, op: Op, h: Handle)
    requires EngineInv(e) && h in e.published.states
    ensures InGoes(e, op, Apply(e, op), h)
  {
    match op
    case Observe(syns) => InUnderObserve(e, syns, h);
    case Attach(now, accepts) => InUnderAttach(e, now, accepts, h);
    case Handshakes(_) => InUnderOwn(e, op, h);
    case ForwardIn(_) => InUnderOwn(e, op, h);
    case Poll(_) => InUnderOwn(e, op, h);
    case _ => InUnderOther(e, op, h);
  }

  // ---------------------------------------------------------------- over runs

  lemma OutUnderAt(trace: seq<Engine>, ops: seq<Op>, k: nat, h: Handle)
    requires IsRun(trace, ops) && k < |ops| && h in trace[k].outgoing.states
    ensures h in trace[k].socks && OutGoes(trace[k], ops[k], trace[k + 1], h)
    ensures OutP.Consistent(trace[k].outgoing.states[h], trace[k].socks[h], trace[k].polls)
  {
    RunsStayConsistent(trace, ops, k);
    assert StepAt(trace, ops, k);
    OutUnder(trace[k], ops[k], h);
  }

  lemma InUnderAt(trace: seq<Engine>, ops: seq<Op>, k: nat, h: Handle)
    requires IsRun(trace, ops) && k < |ops| && h in trace[k].published.states
    ensures h in trace[k].socks && InGoes(trace[k], ops[k], trace[k + 1], h)
    ensures PubP.Consistent(trace[k].published.states[h], trace[k].socks[h], trace[k].polls)
  {
    RunsStayConsistent(trace, ops, k);
    assert StepAt(trace, ops, k);
    InUnder(trace[k], ops[k], h);
  }

  // ---------------------------------------------------------------- when states change

  /** In every run, a listening connection starts a connect exactly when a listener
      pass finds its socket connected, is given up exactly when such a pass finds
      the socket closed or 32 seconds old, and otherwise stays as it is. */
  lemma ListenerTransitions(trace: seq<Engine>, ops: seq<Op>, k: nat, h: Handle)
    requires IsRun(trace, ops) && k < |ops|
    requires h in trace[k].outgoing.states && trace[k].outgoing.states[h].Listening?
    ensures h in trace[k].socks && h in trace[k + 1].outgoing.states && h in trace[k + 1].socks
    ensures var was, now, s := trace[k].outgoing.states[h], trace[k + 1].outgoing.states[h], trace[k].socks[h];
      var established := s.state.Established? || s.state.CloseWait?;
      && (now.Connecting? <==> ops[k].Listeners? && established && s.local.Some?)
      && (now.Connecting? ==> now.route == ops[k].plan(s.local.value))
      && (now.Closing? <==> ops[k].Listeners? && !established
                            && (s.state.Closed? || s.state.TimeWait? || ops[k].now - was.createdAt >= 32_000))
      && (now.Closing? ==> trace[k + 1].socks[h].Dead())
      && (!now.Connecting? && !now.Closing? ==> now == was)
  {
    OutUnderAt(trace, ops, k, h);
  }

  /** A younger listener survives, however long the run. */
  lemma {:induction false} YoungListenerSurvives(trace: seq<Engine>, ops: seq<Op>, j: nat, i: nat, h: Handle)
    requires IsRun(trace, ops) && j <= i <= |ops|
    requires h in trace[j].outgoing.states && trace[j].outgoing.states[h].Listening?
    requires forall k | j <= k < i && ops[k].Listeners? && h in trace[k].socks ::
      && ops[k].now < trace[j].outgoing.states[h].createdAt + 32_000
      && !trace[k].socks[h].Dead() && !trace[k].socks[h].Connected()
    ensures h in trace[i].outgoing.states && trace[i].outgoing.states[h] == trace[j].outgoing.states[h]
  {
    if j < i {
      YoungListenerSurvives(trace, ops, j, i - 1, h);
      ListenerTransitions(trace, ops, i - 1, h);
    }
  }

  /** A connecting one forwards exactly when its task has succeeded, and is aborted
      exactly when the task has failed, or is unfinished and the client is gone. */
  lemma ConnectTransitions(trace: seq<Engine>, ops: seq<Op>, k: nat, h: Handle)
    requires IsRun(trace, ops) && k < |ops|
    requires h in trace[k].outgoing.states && trace[k].outgoing.states[h].Connecting?
    ensures h in trace[k].socks && h in trace[k + 1].outgoing.states && h in trace[k + 1].socks
    ensures var was, now, s := trace[k].outgoing.states[h], trace[k + 1].outgoing.states[h], trace[k].socks[h];
      var gone := s.state in {Closed, TimeWait, TcpState.Closing, FinWait1, FinWait2, LastAck};
      && (now.Established? <==> ops[k].Connects? && ops[k].connects(h).Connected?)
      && (now.Established? ==> now.context == Out.ForwardContext(ops[k].connects(h).stream, [], Out.Open))
      && (now.Closing? <==> ops[k].Connects? && (ops[k].connects(h).Refused? || ops[k].connects(h).Panicked?
                                                 || (ops[k].connects(h).Pending? && gone)))
      && (now.Closing? ==> trace[k + 1].socks[h].state.Closed?)
      && (!now.Established? && !now.Closing? ==> now == was)
  {
    OutUnderAt(trace, ops, k, h);
  }

  /** A published connection forwards exactly when a handshake pass finds its socket
      connected, and is given up exactly when one finds it closed or 32 seconds old. */
  lemma HandshakeTransitions(trace: seq<Engine>, ops: seq<Op>, k: nat, h: Handle)
    requires IsRun(trace, ops) && k < |ops|
    requires h in trace[k].published.states && trace[k].published.states[h].Connecting?
    ensures h in trace[k].socks && h in trace[k + 1].published.states && h in trace[k + 1].socks
    ensures var was, now, s := trace[k].published.states[h], trace[k + 1].published.states[h], trace[k].socks[h];
      var established := s.state.Established? || s.state.CloseWait?;
      && (now.Established? <==> ops[k].Handshakes? && established)
      && (now.Established? ==> now.context == Pub.ConnectionContext(was.host, [], false))
      && (now.Closing? <==> ops[k].Handshakes? && !established
                            && (s.state.Closed? || s.state.TimeWait? || ops[k].now - was.createdAt >= 32_000))
      && (now.Closing? ==> trace[k + 1].socks[h].Dead())
      && (!now.Established? && !now.Closing? ==> now == was)
  {
    InUnderAt(trace, ops, k, h);
  }
}

/**
 * An abstract smoltcp TCP socket and the contract of `Interface::poll`.
 *
 * Only what the forwarding components observe or decide is kept: the TCP state,
 * the port listened on, the endpoints, the two queues, and three histories (bytes
 * taken from the receive queue, bytes accepted for sending, bytes the peer has
 * acknowledged).
 */
module Sockets {
  import opened Common
  import opened Targets

  const TCP_BUF_SIZE: nat := 65536
  const TCP_HANDSHAKE_TIMEOUT: nat := 32_000

  /** The two ends of the link, 172.23.255.255 in the namespace and 172.23.255.254. */
  const TUN_ADDR: u32 := 0xAC17_FFFF
  const TUN_GW: u32 := 0xAC17_FFFE

  type Handle = nat
  type Endpoint = (u32, u16)

  datatype TcpState =
    | Closed | Listen | SynSent | SynReceived | Established | FinWait1 | FinWait2
    | CloseWait | Closing | LastAck | TimeWait

  datatype Socket = Socket(
    state: TcpState, listening: Option<u16>, local: Option<Endpoint>, remote: Option<Endpoint>,
    rx: seq<byte>, tx: seq<byte>,
    taken: seq<byte>, accepted: seq<byte>, acked: seq<byte>)
  {
    predicate Dead() {
      state.Closed? || state.TimeWait?
    }

    predicate Connected() {
      state.Established? || state.CloseWait?
    }

    predicate MaySend() {
      Connected()
    }

    predicate MayRecv() {
      state.Established? || state.FinWait1? || state.FinWait2? || rx != []
    }

    predicate CanSend() {
      MaySend() && |tx| < TCP_BUF_SIZE
    }

    predicate CanRecv() {
      MayRecv() && rx != []
    }

    function Abort(): Socket {
      this.(state := Closed)
    }

    /** `recv` with a closure that consumed k bytes. */
    function Dequeue(k: nat): Socket
      requires k <= |rx|
    {
      this.(rx := rx[k..], taken := taken + rx[..k])
    }

    /** `send_slice` that accepted `data`. */
    function Enqueue(data: seq<byte>): Socket {
      this.(tx := tx + data, accepted := accepted + data)
    }

    /** Every byte the peer has delivered so far. */
    function Received(): seq<byte> {
      taken + rx
    }

    /** Bytes leave the send queue only by acknowledgement, until a final reset. */
    ghost predicate Valid() {
      && |rx| <= TCP_BUF_SIZE
      && |tx| <= TCP_BUF_SIZE
      && (accepted == acked + tx || (state.Closed? && tx == [] && acked <= accepted))
    }

    /** Nothing has been sent or received by the application side yet. */
    predicate Untouched() {
      taken == [] && accepted == []
    }
  }

  type Socks = map<Handle, Socket>

  const FRESH_SOCKET: Socket := Socket(Closed, None, None, None, [], [], [], [], [])

  /** What one write to a host-side stream may answer. */
  datatype WriteAnswer = Wrote(n: nat) | WriteBlock | WriteFault

  /** What `send_slice` may answer. */
  datatype SendAnswer = Accept(n: nat) | Refuse

  /** `SocketSet::add` takes the first empty slot; slot 0 holds the DNS socket. */
  function FirstFree(used: set<Handle>, start: Handle): (h: Handle)
    ensures h !in used && h >= start
    ensures forall k | start <= k < h :: k in used
  {
    if start !in used then start else FirstFree(used - {start}, start + 1)
  }

  function FreshHandle(socks: Socks): (h: Handle)
    ensures h !in socks && h >= 1
  {
    FirstFree(socks.Keys, 1)
  }

  /** Segments arrived and acknowledgements advanced. */
  ghost predicate PollMoves(s: Socket, t: Socket) {
    && s.rx <= t.rx && |t.rx| <= Max(TCP_BUF_SIZE, |s.rx|)
    && |t.tx| <= |s.tx|
    && t.tx == s.tx[|s.tx| - |t.tx|..]
    && t.acked == s.acked + s.tx[..|s.tx| - |t.tx|]
  }

  /** The TIME-WAIT timer expired and the socket was reset. */
  ghost predicate PollResets(s: Socket, t: Socket) {
    s.state.TimeWait? && t.state.Closed? && t.rx == [] && t.tx == [] && t.acked == s.acked
  }

  /** The assumed contract of `Interface::poll` on one socket: it never touches
      the application's side of the queues and never revives a dead socket. */
  ghost predicate PollStep(s: Socket, t: Socket) {
    && t.taken == s.taken && t.accepted == s.accepted
    && (s.state.Closed? ==> t == s)
    && (s.state.TimeWait? ==> t.Dead())
    && (PollMoves(s, t) || PollResets(s, t))
  }

  /** How the network behaves during one poll, per handle. */
  type Net = (Handle, Socket) -> Socket

  ghost predicate NetContract(net: Net) {
    forall h, s {:trigger PollStep(s, net(h, s))} :: PollStep(s, net(h, s))
  }

  lemma PollKeepsValid(s: Socket, t: Socket)
    requires s.Valid() && PollStep(s, t)
    ensures t.Valid()
    ensures s.Dead() ==> t.Dead()
    ensures s.Untouched() ==> t.Untouched()
  {
    if PollMoves(s, t) && s.accepted == s.acked + s.tx {
      assert s.tx == s.tx[..|s.tx| - |t.tx|] + t.tx;
      assert t.accepted == t.acked + t.tx;
    }
  }

  /** `Interface::poll` over the whole set. */
  function PollAll(socks: Socks, net: Net): Socks {
    map h | h in socks :: net(h, socks[h])
  }

  /** A pass over one component's connections: every connection and its socket
      change together and independently of all others, so the order in which a
      hash map yields the handles does not matter. */
  type Pass<!C> = (C, Socket, Handle) -> (C, Socket)

  function EachState<C>(states: map<Handle, C>, socks: Socks, pass: Pass<C>): map<Handle, C>
    requires states.Keys <= socks.Keys
  {
    map h | h in states :: pass(states[h], socks[h], h).0
  }

  function EachSocket<C>(states: map<Handle, C>, socks: Socks, pass: Pass<C>): Socks
    requires states.Keys <= socks.Keys
  {
    map h | h in socks :: if h in states then pass(states[h], socks[h], h).1 else socks[h]
  }

  /** A pass that still has the handles in `todo` to visit. */
  ghost predicate PartWay<C>(states0: map<Handle, C>, socks0: Socks, states: map<Handle, C>, socks: Socks,
                             todo: set<Handle>, pass: Pass<C>)
  {
    && todo <= states.Keys == states0.Keys <= socks.Keys == socks0.Keys
    && (forall h | h in todo :: states[h] == states0[h] && socks[h] == socks0[h])
    && (forall h | h in states && h !in todo :: (states[h], socks[h]) == pass(states0[h], socks0[h], h))
    && (forall h | h in socks && h !in states :: socks[h] == socks0[h])
  }

  lemma PassStep<C>(states0: map<Handle, C>, socks0: Socks, states: map<Handle, C>, socks: Socks,
                    todo: set<Handle>, pass: Pass<C>, h: Handle, c: C, s: Socket)
    requires PartWay(states0, socks0, states, socks, todo, pass)
    requires h in todo && (c, s) == pass(states0[h], socks0[h], h)
    ensures PartWay(states0, socks0, states[h := c], socks[h := s], todo - {h}, pass)
  {
  }

  /** Taking a state out of the map and putting its successor back. */
  lemma Reinsert<C>(states: map<Handle, C>, h: Handle, c: C)
    ensures (states - {h})[h := c] == states[h := c]
  {
  }

  lemma PassDone<C>(states0: map<Handle, C>, socks0: Socks, states: map<Handle, C>, socks: Socks, pass: Pass<C>)
    requires PartWay(states0, socks0, states, socks, {}, pass)
    ensures states == EachState(states0, socks0, pass) && socks == EachSocket(states0, socks0, pass)
  {
  }

  /** Some connections were added, each with a socket of its own; nothing else
      changed. */
  ghost predicate Grows<C>(states: map<Handle, C>, socks: Socks, states': map<Handle, C>, socks': Socks) {
    && (forall h | h in states :: h in states' && states'[h] == states[h])
    && (forall h | h in states' && h !in states :: h !in socks)
    && socks'.Keys == socks.Keys + (states'.Keys - states.Keys)
    && (forall h | h in socks :: socks'[h] == socks[h])
  }

  lemma GrowsTwice<C>(states: map<Handle, C>, socks: Socks, states1: map<Handle, C>, socks1: Socks,
                      states2: map<Handle, C>, socks2: Socks)
    requires states.Keys <= socks.Keys
    requires Grows(states, socks, states1, socks1) && Grows(states1, socks1, states2, socks2)
    ensures Grows(states, socks, states2, socks2)
  {
  }

  /** The socket set. `polls` counts completed polls and exists for proofs only. */
  class SocketSet {
    var m: Socks
    var polls: nat

    constructor ()
      ensures m == map[] && polls == 0
    {
      m := map[];
      polls := 0;
    }

    method Add(socket: Socket) returns (h: Handle)
      modifies this`m
      ensures h == FreshHandle(old(m)) && m == old(m)[h := socket]
    {
      h := 1;
      while h in m
        invariant h >= 1 && FirstFree(m.Keys, 1) >= h
        decreases FirstFree(m.Keys, 1) - h
      {
        h := h + 1;
      }
      m := m[h := socket];
    }

    method Poll(net: Net)
      modifies this
      ensures m == PollAll(old(m), net) && polls == old(polls) + 1
    {
      var todo := m.Keys;
      while todo != {}
        invariant todo <= m.Keys == old(m.Keys)
        invariant forall h | h in m :: m[h] == if h in todo then old(m)[h] else net(h, old(m)[h])
        invariant polls == old(polls)
        decreases todo
      {
        var h :| h in todo;
        m := m[h := net(h, m[h])];
        todo := todo - {h};
      }
      polls := polls + 1;
    }
  }
}

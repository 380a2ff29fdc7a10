/** The outbound component: three indexes updated in place, one loop per pass. */
module OutboundTcps {
  import opened Common
  import opened Targets
  import opened Sockets
  import opened ProxyStreams
  import opened Outbound
  import opened Rules
  import opened Routing

  class OutboundTcp {
    var states: map<Handle, Conn>
    var listeningEndpoints: set<Key>
    var handleToEndpoint: map<Handle, Key>

    ghost function View(): Table
      reads this
    {
      Table(states, listeningEndpoints, handleToEndpoint)
    }

    constructor ()
      ensures View() == EMPTY
    {
      states, listeningEndpoints, handleToEndpoint := map[], {}, map[];
    }

    method ObserveSyns(syns: seq<Syn>, sockets: SocketSet)
      modifies this, sockets`m
      ensures (View(), sockets.m) == Outbound.ObserveSyns(old(View()), old(sockets.m), syns)
    {
      for i := 0 to |syns|
        invariant (View(), sockets.m) == Outbound.ObserveSyns(old(View()), old(sockets.m), syns[..i])
      {
        assert syns[..i + 1][..i] == syns[..i];
        var key := syns[i].key;
        if key in listeningEndpoints {
          continue;
        }
        if key.dstPort == 0 {
          continue;
        }
        var handle := sockets.Add(ListenSocket(key.dstPort));
        states := states[handle := Listening(syns[i].now)];
        listeningEndpoints := listeningEndpoints + {key};
        handleToEndpoint := handleToEndpoint[handle := key];
      }
      assert syns[..|syns|] == syns;
    }

    method UpdateListener(current: Conn, socket: Socket, now: nat, polls: nat,
                          dns: DnsInterceptor, config: Config, engine: Engine)
      returns (state: Conn, after: Socket)
      requires dns.fakeDns.Valid() && config.rules.Valid()
      ensures (state, after) ==
              ListenerStep(current, socket, now, polls,
                           Plan(dns.fakeDns.log, config.rules.specs, config.defaultProxy, engine))
    {
      state, after := current, socket;
      if !current.Listening? {
        return;
      }
      if socket.state.Established? || socket.state.CloseWait? {
        if socket.local.None? {
          return;
        }
        var target := dns.TargetFor(socket.local.value.0, socket.local.value.1);
        var proxy := config.ProxyFor(engine, target);
        state := Connecting(Route(target, proxy));
      } else if socket.state.Closed? || socket.state.TimeWait? {
        state := Conn.Closing(polls);
      } else if now - current.createdAt >= TCP_HANDSHAKE_TIMEOUT {
        after := socket.Abort();
        state := Conn.Closing(polls);
      }
    }

    /** Start a connect task for every accepted connection, towards the target and
        through the proxy that the planner names. */
    method UpdateListeners(sockets: SocketSet, now: nat, dns: DnsInterceptor, config: Config, engine: Engine)
      requires states.Keys <= sockets.m.Keys
      requires dns.fakeDns.Valid() && config.rules.Valid()
      modifies this`states, sockets`m
      ensures (View(), sockets.m) ==
              Outbound.UpdateListeners(old(View()), old(sockets.m), now, sockets.polls,
                                       Plan(dns.fakeDns.log, config.rules.specs, config.defaultProxy, engine))
    {
      ghost var plan := Plan(dns.fakeDns.log, config.rules.specs, config.defaultProxy, engine);
      ghost var pass := ListenerPass(now, sockets.polls, plan);
      var updated, socks := states, sockets.m;
      var todo := states.Keys;
      while todo != {}
        invariant PartWay(states, sockets.m, updated, socks, todo, pass)
        modifies {}
        decreases todo
      {
        var handle :| handle in todo;
        var state, socket := UpdateListener(updated[handle], socks[handle], now, sockets.polls, dns, config, engine);
        PassStep(states, sockets.m, updated, socks, todo, pass, handle, state, socket);
        updated := updated[handle := state];
        socks := socks[handle := socket];
        todo := todo - {handle};
      }
      PassDone(states, sockets.m, updated, socks, pass);
      ghost var result := Outbound.UpdateListeners(View(), sockets.m, now, sockets.polls, plan);
      states := updated;
      sockets.m := socks;
      assert (View(), sockets.m) == result;
      assert plan == Plan(dns.fakeDns.log, config.rules.specs, config.defaultProxy, engine);
    }

    method PollTask(task: Conn, socket: Socket, answer: ConnectAnswer, polls: nat)
      returns (state: Conn, after: Socket)
      requires task.Connecting?
      ensures (state, after) == ConnectStep(task, socket, answer, polls)
    {
      state, after := task, socket;
      match answer {
        case Connected(stream) =>
          state := Conn.Established(ForwardContext(stream, [], Open));
        case Refused =>
          after, state := socket.Abort(), Conn.Closing(polls);
        case Panicked =>
          after, state := socket.Abort(), Conn.Closing(polls);
        case Pending =>
          if ClientGone(socket) {
            after, state := socket.Abort(), Conn.Closing(polls);
          }
      }
    }

    method PollConnecting(sockets: SocketSet, connects: Handle -> ConnectAnswer)
      requires states.Keys <= sockets.m.Keys
      modifies this`states, sockets`m
      ensures (View(), sockets.m) ==
              Outbound.PollConnecting(old(View()), old(sockets.m), connects, sockets.polls)
    {
      ghost var pass := ConnectPass(connects, sockets.polls);
      var todo := set h | h in states && states[h].Connecting?;
      while todo != {}
        invariant forall h | h in todo :: old(states)[h].Connecting?
        invariant PartWay(old(states), old(sockets.m), states, sockets.m, todo, pass)
        decreases todo
      {
        var handle :| handle in todo;
        ghost var before := states;
        var task := states[handle];
        states := states - {handle};
        var next, socket := PollTask(task, sockets.m[handle], connects(handle), sockets.polls);
        PassStep(old(states), old(sockets.m), before, sockets.m, todo, pass, handle, next, socket);
        Reinsert(before, handle, next);
        states := states[handle := next];
        sockets.m := sockets.m[handle := socket];
        todo := todo - {handle};
      }
      PassDone(old(states), old(sockets.m), states, sockets.m, pass);
    }

    method WriteUpstream(link: Link, answer: WriteAnswer) returns (after: Link)
      ensures after == Uplink(link, answer)
    {
      var ctx, socket := link.context, link.socket;
      if socket.MayRecv() && socket.CanRecv() {
        match answer {
          case Wrote(n) =>
            var written := Min(n, |socket.rx|);
            ctx := ctx.(stream := ctx.stream.(written := ctx.stream.written + socket.rx[..written]));
            socket := socket.Dequeue(written);
          case WriteBlock =>
          case WriteFault =>
            socket := socket.Abort();
        }
      }
      after := Link(ctx, socket);
    }

    method ReadUpstream(link: Link, answer: ReadAnswer) returns (after: Link)
      ensures after == Fill(link, answer)
    {
      var ctx, socket := link.context, link.socket;
      if ctx.readState.Open? && |ctx.proxyToApp| < TCP_BUF_SIZE {
        var space := TCP_BUF_SIZE - |ctx.proxyToApp|;
        var stream, result := TryRead(ctx.stream, space, answer);
        ctx := ctx.(stream := stream);
        match result {
          case Data(bytes) =>
            if |bytes| == 0 {
              ctx := ctx.(readState := Eof);
            } else {
              ctx := ctx.(proxyToApp := ctx.proxyToApp + bytes);
            }
          case WouldBlock =>
          case Failed =>
            ctx := ctx.(readState := ReadFailed);
            socket := socket.Abort();
        }
      }
      after := Link(ctx, socket);
    }

    method SendToApp(link: Link, answer: SendAnswer) returns (after: Link)
      ensures after == Push(link, answer)
    {
      var ctx, socket := link.context, link.socket;
      if ctx.proxyToApp != [] && socket.CanSend() {
        var freeSpace := Max(TCP_BUF_SIZE - |socket.tx|, 0);
        var sendLen := Min(freeSpace, |ctx.proxyToApp|);
        if sendLen > 0 {
          match answer {
            case Accept(n) =>
              var sent := Min(n, sendLen);
              socket := socket.Enqueue(ctx.proxyToApp[..sent]);
              ctx := ctx.(proxyToApp := ctx.proxyToApp[sent..]);
            case Refuse =>
              socket := socket.Abort();
          }
        }
      }
      after := Link(ctx, socket);
    }

    /** The forwarding pass over one established connection. */
    method ShuttleOne(context: ForwardContext, socket: Socket, io: Io, polls: nat)
      returns (state: Conn, after: Socket)
      ensures (state, after) == ShuttleStep(Conn.Established(context), socket, io, polls)
    {
      var link := WriteUpstream(Link(context, socket), io.write);
      link := ReadUpstream(link, io.read);
      link := SendToApp(link, io.send);
      after := link.socket;
      var ctx := link.context;
      if ctx.readState.Eof? && ctx.proxyToApp == [] && |after.tx| == 0 && after.MaySend() {
        after := after.Abort();
      }
      state := Conn.Established(ctx);
      if !after.MayRecv() || !after.MaySend() {
        after := after.Abort();
        state := Conn.Closing(polls);
      }
    }

    method ShuttleEstablished(sockets: SocketSet, ios: Handle -> Io)
      requires states.Keys <= sockets.m.Keys
      modifies this`states, sockets`m
      ensures (View(), sockets.m) == Shuttle(old(View()), old(sockets.m), ios, sockets.polls)
    {
      ghost var pass := ShuttlePass(ios, sockets.polls);
      var todo := set h | h in states && states[h].Established?;
      while todo != {}
        invariant forall h | h in todo :: old(states)[h].Established?
        invariant PartWay(old(states), old(sockets.m), states, sockets.m, todo, pass)
        decreases todo
      {
        var handle :| handle in todo;
        var state, socket :=
          ShuttleOne(states[handle].context, sockets.m[handle], ios(handle), sockets.polls);
        PassStep(old(states), old(sockets.m), states, sockets.m, todo, pass, handle, state, socket);
        states := states[handle := state];
        sockets.m := sockets.m[handle := socket];
        todo := todo - {handle};
      }
      PassDone(old(states), old(sockets.m), states, sockets.m, pass);
    }

    /** The caller must have driven every closing socket through a poll first. */
    method Cleanup(sockets: SocketSet)
      requires forall h | h in states && states[h].Closing? :: states[h].since < sockets.polls
      modifies this, sockets`m
      ensures (View(), sockets.m) == Outbound.Cleanup(old(View()), old(sockets.m))
    {
      var todo := set h | h in states && states[h].Closing?;
      ghost var gone: set<Handle> := {};
      while todo != {}
        invariant todo + gone == ClosingHandles(old(View()))
        invariant todo !! gone
        invariant states == old(states) - gone && sockets.m == old(sockets.m) - gone
        invariant handleToEndpoint == old(handleToEndpoint) - gone
        invariant listeningEndpoints == old(listeningEndpoints) -
          (set h | h in gone && h in old(handleToEndpoint) :: old(handleToEndpoint)[h])
        decreases todo
      {
        var handle :| handle in todo;
        todo := todo - {handle};
        if handle in handleToEndpoint {
          listeningEndpoints := listeningEndpoints - {handleToEndpoint[handle]};
          handleToEndpoint := handleToEndpoint - {handle};
        }
        states := states - {handle};
        sockets.m := sockets.m - {handle};
        gone := gone + {handle};
      }
    }
  }
}

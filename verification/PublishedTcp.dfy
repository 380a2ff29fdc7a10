/** The published component: indexes, queues and the port allocator in place. */
module PublishedTcps {
  import opened Common
  import opened Targets
  import opened Sockets
  import opened Ports
  import opened Published

  class PublishedTcp {
    var states: map<Handle, Conn>
    var handleToPort: map<Handle, u16>
    const ports: PortAllocator
    var channel: seq<Accepted>
    var pending: seq<Accepted>
    // Histories, see Published.Table.
    ghost var arrived: nat
    ghost var owner: map<Handle, nat>
    ghost var dropped: set<nat>
    ghost var finished: set<nat>

    ghost function View(): Table
      reads this, ports
    {
      Table(states, handleToPort, ports.next, ports.used, channel, pending, arrived, owner, dropped, finished)
    }

    constructor ()
      ensures fresh(ports) && View() == EMPTY
    {
      states, handleToPort, channel, pending := map[], map[], [], [];
      arrived, owner, dropped, finished := 0, map[], {}, {};
      ports := new PortAllocator();
    }

    /** An accept task delivers a connection; ids are given in arrival order. */
    method Arrive(namespacePort: u16, id: nat)
      requires id == arrived
      modifies this`channel, this`arrived
      ensures View() == Published.Arrive(old(View()), namespacePort)
    {
      channel := channel + [Accepted(id, namespacePort)];
      arrived := arrived + 1;
    }

    method PollReady(woken: bool)
      modifies this`channel, this`pending
      ensures View() == if woken then Receive(old(View())) else old(View())
    {
      if woken && channel != [] {
        pending := pending + [channel[0]];
        channel := channel[1..];
      }
    }

    method AttachAccepted(sockets: SocketSet, now: nat, accepts: Accepted -> bool)
      requires ports.Valid()
      modifies this, ports, sockets`m
      ensures ports.Valid()
      ensures (View(), sockets.m) == Published.AttachAccepted(old(View()), old(sockets.m), now, accepts)
    {
      while channel != []
        invariant DrainChannel(View()) == DrainChannel(old(View()))
        invariant sockets.m == old(sockets.m) && ports.next == old(ports.next)
        decreases |channel|
      {
        assert pending + channel == (pending + [channel[0]]) + channel[1..];
        pending := pending + [channel[0]];
        channel := channel[1..];
      }
      assert View() == DrainChannel(View());
      while pending != []
        invariant ports.Valid()
        invariant AttachPending(View(), sockets.m, now, accepts)
               == Published.AttachAccepted(old(View()), old(sockets.m), now, accepts)
        decreases |pending|
      {
        AttachNext(sockets, now, accepts);
      }
    }

    method AttachNext(sockets: SocketSet, now: nat, accepts: Accepted -> bool)
      requires ports.Valid() && pending != []
      modifies this, ports, sockets`m
      ensures ports.Valid()
      ensures (View(), sockets.m) == AttachFirst(old(View()), old(sockets.m), now, accepts)
    {
      FirstFreePortMeaning(ports.used, ports.next);
      var accepted := pending[0];
      pending := pending[1..];
      var localPort := ports.Allocate();
      if localPort.None? {
        dropped := dropped + {accepted.id};
        return;
      }
      if !accepts(accepted) {
        ports.Release(localPort.value);
        dropped := dropped + {accepted.id};
        assert ports.used == old(ports.used);
        return;
      }
      var handle := sockets.Add(ConnectSocket(accepted.namespacePort, localPort.value));
      states := states[handle := Connecting(Host(accepted.id, [], []), now)];
      handleToPort := handleToPort[handle := localPort.value];
      owner := owner[handle := accepted.id];
    }

    method PollHandshake(waiting: Conn, socket: Socket, now: nat, polls: nat)
      returns (state: Conn, after: Socket)
      requires waiting.Connecting?
      ensures (state, after) == ConnectStep(waiting, socket, now, polls)
    {
      state, after := waiting, socket;
      if socket.state.Established? || socket.state.CloseWait? {
        state := Conn.Established(ConnectionContext(waiting.host, [], false));
      } else if socket.state.Closed? || socket.state.TimeWait? {
        state := Conn.Closing(polls);
      } else if now - waiting.createdAt >= TCP_HANDSHAKE_TIMEOUT {
        after := socket.Abort();
        state := Conn.Closing(polls);
      }
    }

    method PollConnecting(sockets: SocketSet, now: nat)
      requires states.Keys <= sockets.m.Keys
      modifies this`states, sockets`m
      ensures (View(), sockets.m) == Published.PollConnecting(old(View()), old(sockets.m), now, sockets.polls)
    {
      ghost var pass := ConnectPass(now, sockets.polls);
      var todo := set h | h in states && states[h].Connecting?;
      while todo != {}
        invariant forall h | h in todo :: old(states)[h].Connecting?
        invariant PartWay(old(states), old(sockets.m), states, sockets.m, todo, pass)
        decreases todo
      {
        var handle :| handle in todo;
        ghost var before := states;
        var waiting := states[handle];
        states := states - {handle};
        var state, socket := PollHandshake(waiting, sockets.m[handle], now, sockets.polls);
        PassStep(old(states), old(sockets.m), before, sockets.m, todo, pass, handle, state, socket);
        Reinsert(before, handle, state);
        states := states[handle := state];
        sockets.m := sockets.m[handle := socket];
        todo := todo - {handle};
      }
      PassDone(old(states), old(sockets.m), states, sockets.m, pass);
    }

    method ReadHost(link: Link, answer: HostAnswer) returns (after: Link)
      ensures after == Fill(link, answer)
    {
      var ctx, failed := link.context, link.failed;
      if !ctx.closeAfterDrain && |ctx.hostToNamespace| < TCP_BUF_SIZE {
        var space := TCP_BUF_SIZE - |ctx.hostToNamespace|;
        match answer {
          case HostData(bytes) =>
            var read := Min(|bytes|, space);
            if read == 0 {
              ctx := ctx.(closeAfterDrain := true);
            } else {
              ctx := ctx.(host := ctx.host.(read := ctx.host.read + bytes[..read]),
                          hostToNamespace := ctx.hostToNamespace + bytes[..read]);
            }
          case HostBlock =>
          case HostFault =>
            failed := true;
        }
      }
      after := Link(ctx, link.socket, failed);
    }

    method SendToNamespace(link: Link, answer: SendAnswer) returns (after: Link)
      ensures after == Push(link, answer)
    {
      var ctx, socket, failed := link.context, link.socket, link.failed;
      if ctx.hostToNamespace != [] && socket.CanSend() {
        var freeSpace := Max(TCP_BUF_SIZE - |socket.tx|, 0);
        var sendLen := Min(freeSpace, |ctx.hostToNamespace|);
        if sendLen > 0 {
          match answer {
            case Accept(n) =>
              var sent := Min(n, sendLen);
              socket := socket.Enqueue(ctx.hostToNamespace[..sent]);
              ctx := ctx.(hostToNamespace := ctx.hostToNamespace[sent..]);
            case Refuse =>
              failed := true;
          }
        }
      }
      after := Link(ctx, socket, failed);
    }

    method WriteHost(link: Link, answer: WriteAnswer) returns (after: Link)
      ensures after == Downlink(link, answer)
    {
      var ctx, socket, failed := link.context, link.socket, link.failed;
      if socket.CanRecv() {
        match answer {
          case Wrote(n) =>
            var written := Min(n, |socket.rx|);
            ctx := ctx.(host := ctx.host.(written := ctx.host.written + socket.rx[..written]));
            socket := socket.Dequeue(written);
          case WriteBlock =>
          case WriteFault =>
            failed := true;
        }
      }
      after := Link(ctx, socket, failed);
    }

    /** The forwarding pass over one established connection. */
    method ShuttleOne(context: ConnectionContext, socket: Socket, io: Io, polls: nat)
      returns (state: Conn, after: Socket)
      ensures (state, after) == ShuttleStep(Conn.Established(context), socket, io, polls)
    {
      var link := ReadHost(Link(context, socket, false), io.read);
      link := SendToNamespace(link, io.send);
      link := WriteHost(link, io.write);
      var ctx := link.context;
      after := link.socket;
      if !after.MayRecv() && |after.rx| == 0 {
        ctx := ctx.(closeAfterDrain := true);
      }
      state := Conn.Established(ctx);
      var namespaceClosed := after.state.Closed? || after.state.TimeWait?;
      var drainedAfterEof :=
        ctx.closeAfterDrain && ctx.hostToNamespace == [] && |after.tx| == 0 && |after.rx| == 0;
      if link.failed || namespaceClosed || drainedAfterEof {
        if !namespaceClosed {
          after := after.Abort();
        }
        state := Conn.Closing(polls);
      }
    }

    method ShuttleEstablished(sockets: SocketSet, ios: Handle -> Io)
      requires states.Keys <= sockets.m.Keys
      modifies this`states, sockets`m
      ensures (View(), sockets.m) == Shuttle(old(View()), old(sockets.m), ios, sockets.polls)
    {
      ghost var pass := ShuttlePass(ios, sockets.polls);
      var todo := set h | h in states && states[h].Established?;
      while todo != {}
        invariant forall h | h in todo :: old(states)[h].Established?
        invariant PartWay(old(states), old(sockets.m), states, sockets.m, todo, pass)
        decreases todo
      {
        var handle :| handle in todo;
        var state, socket :=
          ShuttleOne(states[handle].context, sockets.m[handle], ios(handle), sockets.polls);
        PassStep(old(states), old(sockets.m), states, sockets.m, todo, pass, handle, state, socket);
        states := states[handle := state];
        sockets.m := sockets.m[handle := socket];
        todo := todo - {handle};
      }
      PassDone(old(states), old(sockets.m), states, sockets.m, pass);
    }

    /** The caller must have driven every closing socket through a poll first. */
    method Cleanup(sockets: SocketSet)
      requires forall h | h in states && states[h].Closing? :: states[h].since < sockets.polls
      modifies this, ports`used, sockets`m
      ensures (View(), sockets.m) == Published.Cleanup(old(View()), old(sockets.m))
    {
      ghost var was := View();
      var todo := set h | h in states && states[h].Closing?;
      ghost var gone: set<Handle> := {};
      RemovedNone(was, sockets.m);
      while todo != {}
        invariant todo + gone == ClosingHandles(was) && todo !! gone
        invariant (View(), sockets.m) == Removed(was, old(sockets.m), gone)
        decreases todo
      {
        var handle :| handle in todo;
        todo := todo - {handle};
        RemovedOneMore(was, old(sockets.m), gone, handle);
        RemoveHandle(sockets, handle);
        gone := gone + {handle};
      }
    }

    method RemoveHandle(sockets: SocketSet, handle: Handle)
      modifies this, ports`used, sockets`m
      ensures (View(), sockets.m) == Removed(old(View()), old(sockets.m), {handle})
    {
      states := states - {handle};
      sockets.m := sockets.m - {handle};
      if handle in handleToPort {
        ports.Release(handleToPort[handle]);
        handleToPort := handleToPort - {handle};
      }
      finished := finished + ValuesAt(owner, {handle});
      owner := owner - {handle};
      assert ports.used == old(ports.used) - ValuesAt(old(handleToPort), {handle});
      assert handleToPort == old(handleToPort) - {handle};
    }
  }
}

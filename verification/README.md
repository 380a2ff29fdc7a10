# nsproxy-rs: a verified model of the forwarding engine

nsproxy-rs runs a command in a network namespace of its own and forwards its TCP
traffic through a proxy from user space. This project models its logic in Dafny
and proves what the program relies on:

- **Forwarding engine** (`Sockets`, `Outbound*`, `Published*`, `Ports`, `Engine`,
  `Steps`, `EventLoop`, `Ticks`, `EndToEnd`, `Delivery`, `CloseLosses`): both TCP
  components over one abstract smoltcp socket set, the port allocator, the order of
  a tick, and all runs of it.
  Index agreement, byte conservation in both directions, bounded buffers,
  forward-only connection states, and a poll between closing and removal hold after
  every operation of every schedule, and what is to be forwarded arrives once enough
  passes are let through.
- **Names and routes** (`FakeDns`, `DnsWire`, `PrefixSpec`, `PrefixTrie`, `Rules`,
  `Routing`): the fake-address pool as a refinement of "the last POOL_SIZE
  allocations", the DNS codec, the prefix trie as a refinement of a plain scan,
  and the way from a DNS question to the route of a connection.
- **Proxy handshakes** (`ProxyStream`, `HttpConnect`, `Base64`, `Socks5`): the
  HTTP CONNECT and SOCKS5 clients for every server byte stream and every way of
  cutting it into reads.
- **Processes** (`ProcessTree`, `Reaper`, `Handshake`): signalling the process
  tree, reaping it under a child subreaper, the termination deadline, and the
  two-process set-up handshake in which either process may end at any point.

## How the model is built

Components that the source updates in place are classes (`OutboundTcp`,
`PublishedTcp`, `PortAllocator`, `FakeDns`, `PrefixTrie` with its linked nodes,
`EventLoop`, `SocketSet`); their loops are loops, and each method is proved
against a function on values. The properties are lemmas about those functions
and about all sequences of operations. Values that one Rust owner holds
exclusively (sockets, streams, connection contexts) are datatypes kept in the
owner's maps.

What the environment decides (kernel answers to reads and writes, network
behaviour, finished connects, clock readings, regex compilation and matching,
UTF-8 validity, when an I/O call fails) is a parameter or a nondeterministic choice,
so every statement is for all of them.
Two contracts are assumed and written out: `Sockets.PollStep` says that
`Interface::poll` only appends received bytes, only removes acknowledged ones and
never revives a Closed or TimeWait socket; `Outbound.ConnectContract` says that a
finished connect task hands over a stream nobody has read from. Names such as
`taken`, `accepted`, `acked`, `handed`, `written`, `owner` and `since` are
histories that exist for the statements only.

Five promises do not hold as one might read them; each has a concrete input and
the exact condition:

- An outbound connection whose application half-closes is aborted by the pass that
  takes the rest of its bytes, even with upstream bytes pending
  (`OutboundProofs.HalfClosedConnectionCloses`, with a run in
  `CloseLosses.HalfCloseLosesByte`).
- An outbound connection whose upstream has ended closes without looking at its
  receive queue, so the application's last bytes are dropped unless the same pass
  writes them (`OutboundProofs.OpenConnectionClosesOnlyDrained`, with a run in
  `CloseLosses.CloseDropsUnsentByte`).
- A fake address does not live for POOL_SIZE further names after every answer: a
  repeated answer does not refresh it, so what counts is how many names were
  allocated after the address itself (`FakeDnsPool.MappingLifetime`,
  `FakeDnsPool.HitThenOneMissEvicts`).
- A dead parent does not always stop the child: behind the ready byte the child
  still starts the command (`Handshake.RunsSettle`, `Handshake.OrphanedCommand`).
- The CONNECT request names its target verbatim, and DNS labels may contain line
  feeds. The request has the lines it is meant to have exactly if the target has
  none (`HttpConnect.RequestReadsBack`), and its header section ends early exactly
  if the target continues on a blank line (`HttpConnect.HeadEndsWithRequest`).

Where comments and code differ, the code is modelled: the SOCKS5 login reply's
version byte is not checked, and end of stream inside HTTP headers counts as the
blank line.

## Model

| member | source | states |
|---|---|---|
| `ProxyStreams.TryRead` | src/proxy/mod.rs:163-173 | a read drains the prefetched cursor before it touches the socket, and returns exactly the next bytes of what remains |
| `ProxyStreams.ReadKeepsTunnel` | src/proxy/mod.rs:163-173 | for every buffer size and kernel answer: bytes returned so far followed by what remains never changes, at most the asked size is returned, and end of file is reported only when nothing remains |
| `ProxyStreams.ReadsKeepTunnel` | src/proxy/mod.rs:163-197 | any schedule of reads hands out a prefix of the tunnel and leaves exactly the rest |
| `ProxyStreams.ReadHandsOver` | src/proxy/mod.rs:163-173 | prefetched bytes are handed out whatever the socket says, a readable socket yields at least one byte while any remains, and blocking or failing is reported only when the socket says so |
| `OutboundProofs.PumpKeepsFlow` | src/event_loop/outbound.rs:266-319 | one forwarding pass, for every I/O answer, keeps: accepted ++ buffer == read from upstream, taken from the app == written upstream, buffer within 65536, end of file believed only at the end, tunnel and acknowledgements unchanged |
| `OutboundProofs.PassMoves` | src/event_loop/outbound.rs:266-319 | what a faultless pass moves, exactly and on the histories: min(n, received) bytes upstream, at least one byte read whenever one can be, and min(n, free queue, buffer) bytes to the app |
| `OutboundProofs.GenerousPassDelivers` | src/event_loop/outbound.rs:286-319 | a pass that is let through delivers at least one byte while any of the tunnel is undelivered |
| `OutboundProofs.FailureCloses` | src/event_loop/outbound.rs:279-332 | an I/O call that is made and fails, or a socket that is not connected, closes the connection |
| `OutboundProofs.Accounting` | src/event_loop/outbound.rs:286-319 | while the socket lives, the tunnel is exactly acknowledged ++ send queue ++ buffer ++ still upstream |
| `OutboundProofs.PassCloses` | src/event_loop/outbound.rs:266-332 | on any connected socket a pass without fault closes if and only if upstream has ended with nothing on the way back, or the app has half-closed and this pass takes the rest of its bytes |
| `OutboundProofs.CloseDelivers` | src/event_loop/outbound.rs:266-332 | whatever the I/O answers, on a close the app has acknowledged the whole tunnel if and only if nothing was on the way back, and upstream was given all received bytes if and only if this pass takes the rest |
| `OutboundProofs.OpenConnectionClosesOnlyDrained` | src/event_loop/outbound.rs:321-332 | with both directions open and no fault, a pass closes if and only if upstream has ended and buffer and send queue are empty; then the app has acknowledged the whole tunnel, but its own last bytes reached upstream if and only if this pass takes them |
| `OutboundProofs.HalfClosedConnectionCloses` | src/event_loop/outbound.rs:321-332 | after the app's half-close, the pass that takes the rest of its bytes closes whatever the I/O answers; exact closing condition without faults; the whole tunnel was delivered if and only if nothing was on the way back |
| `CloseLosses.HalfCloseLosesByte` | src/event_loop/outbound.rs:329-332 | a run from the initial engine: the app half-closes while an upstream byte is unread; for every I/O answer the connection closes and the byte is never delivered |
| `CloseLosses.CloseDropsUnsentByte` | src/event_loop/outbound.rs:321-327 | a run from the initial engine: upstream has ended and is not writable when the app sends a byte on the open connection; the connection closes and the byte is never written |
| `OutboundProofs.ObserveSynKeeps` | src/event_loop/outbound.rs:59-90 | an unseen SYN gets one fresh listening socket under its own key; the indexes keep agreeing and nothing else changes |
| `OutboundProofs.ObserveSynsKeeps` | src/event_loop/outbound.rs:59-90 | the same for any list of SYNs: every non-zero port ends up live, old entries are untouched |
| `OutboundProofs.RepeatedSynsAddNothing` | src/event_loop/outbound.rs:65-67 | packets whose keys are live create nothing, at any later time |
| `OutboundProofs.UpdateListenersKeeps` | src/event_loop/outbound.rs:147-184 | the pass keeps all connection invariants and moves states only forward, stamping Closing with the poll count |
| `OutboundProofs.PollConnectingKeeps` | src/event_loop/outbound.rs:186-250 | the pass keeps all connection invariants and moves states only forward |
| `OutboundProofs.ShuttleKeeps` | src/event_loop/outbound.rs:252-334 | the pass keeps all connection invariants and moves states only forward |
| `OutboundProofs.CleanupKeeps` | src/event_loop/outbound.rs:338-353 | removes exactly the closing handles from all three indexes; the live keys are exactly the keys of the remaining handles |
| `OutboundTcps.OutboundTcp.ObserveSyns` | src/event_loop/outbound.rs:59-90 | the in-place loop computes the specified table and socket set |
| `OutboundTcps.OutboundTcp.UpdateListener` | src/event_loop/outbound.rs:155-182 | one listener: target from the DNS table, proxy from the rules, or timeout |
| `OutboundTcps.OutboundTcp.UpdateListeners` | src/event_loop/outbound.rs:147-184 | the pass in any handle order equals the per-handle specification under the routing plan |
| `OutboundTcps.OutboundTcp.PollConnecting` | src/event_loop/outbound.rs:186-250 | the remove-and-reinsert loop in any handle order equals the per-handle specification |
| `OutboundTcps.OutboundTcp.ShuttleOne` | src/event_loop/outbound.rs:264-332 | write up, read down, send, drain and half-close checks in source order equal the specified step |
| `OutboundTcps.OutboundTcp.ShuttleEstablished` | src/event_loop/outbound.rs:252-334 | the pass in any handle order equals the per-handle specification |
| `OutboundTcps.OutboundTcp.Cleanup` | src/event_loop/outbound.rs:336-353 | requires every closing handle to have been polled since; removes them from maps, key set and socket set |
| `Ports.FirstFreePortMeaning` | src/event_loop/published.rs:56-70 | for every cursor and used set: the result is free, everything before it in cyclic order from the cursor is taken, and there is none if and only if all 16384 ports are taken |
| `Ports.PortAllocator.Allocate` | src/event_loop/published.rs:56-70 | the scan returns that port, marks it used and leaves the cursor just past it; a full failed scan changes nothing |
| `Ports.PortAllocator.Release` | src/event_loop/published.rs:72-74 | exactly that port becomes free |
| `PublishedProofs.PumpKeepsFlow` | src/event_loop/published.rs:296-366 | one pass, for every I/O answer, keeps: read from host == accepted ++ buffer, written to host == taken from namespace, buffer within 65536 |
| `PublishedProofs.PassMoves` | src/event_loop/published.rs:296-366 | what a faultless pass moves, exactly: what the host offers and the buffer holds, what the namespace accepts of it, what the host takes of the receive queue |
| `PublishedProofs.FailureCloses` | src/event_loop/published.rs:296-379 | an I/O call that is made and fails, or a dead socket, closes the connection |
| `PublishedProofs.GracefulCloseIsComplete` | src/event_loop/published.rs:368-379 | a close that is neither a failure nor the namespace's own happens only when all host bytes are acknowledged and all namespace bytes are written to the host |
| `PublishedProofs.OpenConnectionClosesOnlyDrained` | src/event_loop/published.rs:296-379 | with both directions open and no fault, closes if and only if the host has ended, buffer and send queue are empty and this pass writes out all received bytes |
| `PublishedProofs.HalfClosedConnectionClosesDrained` | src/event_loop/published.rs:364-379 | after the namespace's half-close, closes if and only if nothing is on the way in either direction and the host offers nothing new |
| `PublishedProofs.AttachFirstDrops` | src/event_loop/published.rs:176-196 | with no port free or the connect refused, the first waiting connection is dropped and nothing else but the cursor changes: no port stays taken, no socket is added |
| `PublishedProofs.AttachFirstAttaches` | src/event_loop/published.rs:176-217 | in every other case it gets the first free port in cyclic order, a socket of its own and a state, and the cursor moves past that port |
| `PublishedProofs.EachWaitingIsDecided` | src/event_loop/published.rs:167-218 | over the whole pass each waiting connection is dropped if and only if its connect is refused or no port is free at its turn; otherwise exactly one handle, a new one, carries it from the first then free port to its namespace port |
| `PublishedProofs.EnoughPortsAttachAll` | src/event_loop/published.rs:167-218 | with enough free ports and no refusal every waiting connection gets a handle |
| `PublishedProofs.ReceiveKeeps` | src/event_loop/published.rs:143-174 | waiting connections keep their order; a wake-up takes one from the channel and the pass takes all |
| `PublishedProofs.ArriveKeeps` | src/event_loop/published.rs:99-112 | a new arrival waits behind all others, and every arrival stays in exactly one place |
| `PublishedProofs.AttachAcceptedKeeps` | src/event_loop/published.rs:167-218 | draining channel and pending list keeps ports == image of the handle map, every arrival in exactly one place, and leaves nothing waiting |
| `PublishedProofs.PollConnectingKeeps` | src/event_loop/published.rs:225-281 | the pass keeps all invariants and moves states only forward |
| `PublishedProofs.ShuttleKeeps` | src/event_loop/published.rs:283-381 | the pass keeps all invariants and moves states only forward |
| `PublishedProofs.CleanupKeeps` | src/event_loop/published.rs:383-398 | removes exactly the closing handles and releases exactly their ports: used ports are those of the remaining handles |
| `PublishedProofs.LivePortsBounded` | src/event_loop/published.rs:16-17 | at most 16384 published connections hold a port |
| `PublishedTcps.PublishedTcp.PollReady` | src/event_loop/published.rs:143-146 | moves at most one accepted connection from the channel to the pending list |
| `PublishedTcps.PublishedTcp.AttachAccepted` | src/event_loop/published.rs:167-218 | both loops together compute the specified attachment |
| `PublishedTcps.PublishedTcp.PollConnecting` | src/event_loop/published.rs:225-281 | the loop in any handle order equals the per-handle specification |
| `PublishedTcps.PublishedTcp.ShuttleOne` | src/event_loop/published.rs:292-379 | read host, send, write host, half-close and close checks in source order equal the specified step |
| `PublishedTcps.PublishedTcp.ShuttleEstablished` | src/event_loop/published.rs:283-381 | the pass in any handle order equals the per-handle specification |
| `PublishedTcps.PublishedTcp.Cleanup` | src/event_loop/published.rs:383-398 | requires every closing handle to have been polled since; removes them and releases their ports |
| `Engines.ApplyKeeps` | src/event_loop.rs:147-167 | every operation of either component keeps both consistent, disjoint, and owners of every socket |
| `Engines.RunsStayConsistent` | src/event_loop.rs:100-167 | after every operation of every run: indexes agree, no byte lost or reordered, buffers bounded, ports and arrivals conserved, every closing socket Closed or TimeWait |
| `Engines.RunsProgress` | src/event_loop.rs:100-167 | in every step of every run each handle only moves forward, leaves only from Closing and only by a clean-up, and new handles start at the first state in an unused slot |
| `Engines.RemovedWereFlushed` | src/event_loop.rs:145-167 | in tick-ordered runs whatever is removed was closing and has been polled since it was marked |
| `Engines.OutPollBeforeRemoval` | src/event_loop.rs:145-167 | at least one Interface::poll lies strictly between marking an outbound connection closing and removing it |
| `Engines.InPollBeforeRemoval` | src/event_loop.rs:145-167 | the same for published connections |
| `EventLoops.EventLoop.Tick` | src/event_loop.rs:147-167 | a tick performs exactly the ten operations in order, with the routing plan after this tick's DNS queries, and extends the allocation log by the names asked |
| `EventLoops.EventLoop.PollReady` | src/event_loop.rs:122-133 | a wake-up collects finished connects and at most one accepted connection |
| `EventLoops.SchedulesAreTickOrdered` | src/event_loop.rs:100-167 | every interleaving of ticks and wake-ups has both clean-ups directly behind a poll |
| `EventLoops.EverySchedule` | src/event_loop.rs:100-167 | every schedule is a tick-ordered run and ends consistent |
| `Steps.OutUnder` | src/event_loop.rs:147-167 | what each operation does to one outgoing connection: only polls and its own three passes touch it, only a clean-up removes it, and only from Closing |
| `Steps.InUnder` | src/event_loop.rs:147-167 | the same for published connections |
| `Steps.ListenerTransitions` | src/event_loop/outbound.rs:147-184 | in every run a listening connection starts the planned connect if and only if a listener pass finds its socket connected, is given up if and only if one finds it closed or 32 s old, and otherwise stays |
| `Steps.YoungListenerSurvives` | src/event_loop/outbound.rs:147-184 | a listener younger than 32 s whose socket is neither connected nor closed survives any run |
| `Steps.ConnectTransitions` | src/event_loop/outbound.rs:186-250 | in every run a connecting one forwards if and only if its task succeeded, and is aborted if and only if the task failed or the client is gone before it ends |
| `Steps.HandshakeTransitions` | src/event_loop/published.rs:225-281 | in every run a published connection forwards if and only if a handshake pass finds its socket connected, and is given up if and only if one finds it closed or 32 s old |
| `Ticks.TickCarries` | src/event_loop.rs:147-167 | what a tick does to an outgoing connection: ingress, listener pass, one forwarding pass, egress, removal if closed |
| `Ticks.PublishedTickCarries` | src/event_loop.rs:147-167 | the same for a published connection |
| `Ticks.SynStartsConnect` | src/event_loop.rs:147-167 | a SYN with a new key whose handshake completes leads within the tick to the connect the plan names for its destination |
| `Ticks.SynToForwarding` | src/event_loop.rs:109-167 | and once that connect has succeeded the connection forwards its stream |
| `Ticks.TickForwards` | src/event_loop.rs:147-167 | an open connection with something undelivered has delivered some of it after a tick that lets a byte through |
| `Ticks.TickServes` | src/event_loop.rs:147-167 | a published connection whose socket connects forwards what the host offers in the same tick |
| `EndToEnd.StreamOrder` | src/event_loop/outbound.rs:252-334 | in every run, from the moment a connection gets its upstream stream: accepted ++ buffer ++ unread is exactly that stream, and bytes taken from the app are those written upstream |
| `Delivery.EverythingIsDelivered` | src/event_loop/outbound.rs:252-334 | in every run, once as many passes have let a byte through as the upstream stream has bytes, the app socket has accepted the whole stream |
| `Delivery.ApplicationIsHeard` | src/event_loop/outbound.rs:252-334 | in every run, while a connection lives, once as many passes have written as bytes were received from the app, those bytes are written upstream |
| `Delivery.HostIsHeard` | src/event_loop/published.rs:283-381 | in every run, once as many passes could send as bytes had been read from the host, the namespace socket has accepted them |
| `Delivery.NamespaceIsHeard` | src/event_loop/published.rs:283-381 | in every run, while a connection lives, once as many passes have written as bytes were received from the namespace, the host has been given them |
| `EndToEnd.Origin` | src/event_loop/outbound.rs:59-250 | in every run each forwarding connection began with a SYN in an unused slot, a listener pass that found its socket connected and started the connect the plan names for its local endpoint, and a finished connect whose stream it has forwarded ever since |
| `EndToEnd.HttpStreamOrder` | src/proxy/http.rs:67-119 | through an HTTP proxy, for every accepted reply, accepted ++ buffer ++ unread is exactly what follows the end of its headers |
| `EndToEnd.SocksStreamOrder` | src/proxy/socks5.rs:51-69 | through a SOCKS5 proxy, accepted ++ buffer ++ unread is exactly the server's bytes behind the handshake |
| `EndToEnd.OutboundCloseDelivers` | src/event_loop/outbound.rs:252-334 | in every run, when a forwarding pass closes a connected socket, exactly when each direction was delivered completely |
| `EndToEnd.PublishedOrigin` | src/event_loop/published.rs:167-281 | in every run each forwarding published connection was attached in an unused slot and began to forward when a handshake pass found its socket connected |
| `EndToEnd.ConnectsToName` | src/event_loop/outbound.rs:160-172 | a connection accepted at an address answered for a name starts a task for that name by its first matching rule or the default |
| `EndToEnd.PublishedClosesComplete` | src/event_loop/published.rs:283-381 | in every run a graceful close of a published connection leaves nothing undelivered in either direction |
| `FakeDnsPool.ResolveStaysGood` | src/fake_dns.rs:50-68 | after any call the name is live and no name has two live addresses |
| `FakeDnsPool.MappingLifetime` | src/fake_dns.rs:47-68 | allocation i answers for its name until POOL_SIZE later allocations, in both directions; the next one evicts it, and its address cannot mean the name again before another full round |
| `FakeDnsPool.HitThenOneMissEvicts` | src/fake_dns.rs:47-54 | a hit does not refresh a mapping: in a full pool the oldest name can be answered and evicted by the very next miss |
| `FakeDnsPool.FullPool` | src/fake_dns.rs:304-330 | such a pool is reached by asking for POOL_SIZE different names of five letters, with one more left to ask for |
| `FakeDnsPool.TrackedMapsAreInverse` | src/fake_dns.rs:26-35 | the two maps are mutual inverses over pool addresses |
| `FakeDnsPool.TrackedCount` | src/fake_dns.rs:26-35 | they hold min(n, POOL_SIZE) names after n allocations |
| `FakeDnsPool.MissTracks` | src/fake_dns.rs:56-65 | evicting the slot's previous name and inserting the new one makes the maps hold exactly the last POOL_SIZE allocations |
| `FakeDnsPool.FakeDns.Resolve` | src/fake_dns.rs:50-68 | refines the log of allocations: a hit changes nothing, a miss appends; the address is that of the name's live allocation |
| `FakeDnsPool.FakeDns.Lookup` | src/fake_dns.rs:71-73 | answers from the live allocations and only from them |
| `PrefixSpec.ScanMeaning` | src/rule.rs:15-16 | the plain scan yields the earliest among the covering rules with the longest prefix, or none |
| `PrefixSpec.SameQuotientIffSameBits` | src/rule.rs:26-27 | two addresses agree above the host part if and only if their leading bits agree |
| `PrefixSpec.LookupIsScan` | src/rule.rs:23-49 | for every rule list (host bits may be set) and address, longest-prefix lookup in the built table is the plain scan |
| `PrefixTries.PrefixTrie.Insert` | src/rule.rs:23-33 | walking and growing the linked nodes adds the action at the prefix path unless one is there |
| `PrefixTries.PrefixTrie.Get` | src/rule.rs:35-49 | the walk returns the action at the longest stored prefix |
| `Rules.FromSpecs` | src/rule.rs:113-161 | fails if and only if a prefix exceeds 32 or the domain patterns do not compile together; otherwise trie and parallel arrays hold exactly the ip and domain rules in command-line order |
| `Rules.IpRulesInOrder` | src/rule.rs:118-138 | the ip rules are the ip and cidr arguments, all of them and in order: an address stands for itself, a network for all addresses with its leading bits |
| `Rules.DomainRulesInOrder` | src/rule.rs:139-148 | the domain rules are the domain arguments, all of them and in order, with their patterns and actions |
| `Rules.FirstMatchIsDomainRoute` | src/rule.rs:163-166 | lowest matching index of the regex set is the first matching rule |
| `Rules.RuleMatcher.MatchDomain` | src/rule.rs:163-166 | the action of the first matching domain rule |
| `Rules.RuleMatcher.MatchIp` | src/rule.rs:168-170 | the action the plain scan of the ip rules selects |
| `Rules.Config.ProxyFor` | src/config.rs:20-29 | the matching rule's route, or the default; IPv6 targets always take the default |
| `DnsWire.EncodeName` | src/fake_dns.rs:211-219 | appends length-prefixed labels and the terminator |
| `DnsWire.ParseQuery` | src/fake_dns.rs:96-151 | header, label loop and question fields equal the recursive specification, including every rejection |
| `DnsWire.ParsedNameIsWire` | src/fake_dns.rs:116-140 | whatever the parser accepts is the encoding of the labels it returns, each of 1 to 63 decodable bytes |
| `DnsWire.WireParses` | src/fake_dns.rs:116-140 | every such encoding is accepted, whatever follows |
| `DnsWire.QueryAccepted` | src/fake_dns.rs:96-151 | a datagram with QR clear, a question announced, an encoded name and four more bytes parses to identifier, dotted name and type |
| `DnsWire.OnlyQueriesAccepted` | src/fake_dns.rs:96-151 | and nothing else parses |
| `DnsWire.QueryRoundTrip` | src/fake_dns.rs:96-151 | a query for dot-free labels parses to its identifier, dotted name and type |
| `DnsWire.RebuiltNameLength` | src/fake_dns.rs:148-151 | for every accepted query the rebuilt name is as long as the original and no length byte is truncated |
| `DnsWire.QuestionEchoed` | src/fake_dns.rs:188-205 | the empty response repeats the question byte for byte if and only if the class is IN and no label contains a dot |
| `DnsWire.AResponseRoundTrip` | src/fake_dns.rs:157-182 | a resolver reads back identifier, labels, TTL 300 and address |
| `DnsWire.ResponseHeaders` | src/fake_dns.rs:160-166 | both responses echo the identifier, carry 0x8180 and the right counts |
| `DnsWire.BuildEmptyResponse` | src/fake_dns.rs:188-205 | builds that response |
| `DnsWire.BuildAResponse` | src/fake_dns.rs:157-182 | builds that response |
| `Routing.DnsInterceptor.Process` | src/event_loop/dns.rs:42-67 | each readable datagram gets its reply, A queries extend the allocation log in order, an oversized datagram ends the pass |
| `Routing.DnsInterceptor.TargetFor` | src/event_loop/dns.rs:71-85 | the name whose live allocation has the address, else the numeric target |
| `Routing.AnswerCarriesAddress` | src/event_loop/dns.rs:54-57 | the reply to an A query for a dot-free name carries the address of its live allocation |
| `Routing.ReplyByType` | src/event_loop/dns.rs:50-61 | a question of type 1 gets one answer record with the address for its name, any other type gets its identifier back, no answer and no allocation, and what is no question gets no reply |
| `Routing.ConnectionFollowsAnswer` | src/event_loop/dns.rs:71-85 | connecting to an answered address yields the name and its first-rule route while fewer than POOL_SIZE names were allocated after it, and not that name during the following round |
| `Routing.QueryToRoute` | src/event_loop/dns.rs:42-85 | from query bytes to reply bytes to the address the client reads to the route: the name asked for, by its first matching rule or the default, while fewer than POOL_SIZE names were allocated after the address; a new name is safe for fewer than POOL_SIZE further questions |
| `Routing.NumericTargetKept` | src/event_loop/dns.rs:81-84 | addresses outside the pool stay numeric and use the longest-prefix route or the default |
| `Base64.Base64Encode` | src/proxy/http.rs:151-179 | the chunk loop computes the specified text |
| `Base64.RoundTrip` | src/proxy/http.rs:151-179 | a strict RFC 4648 decoder undoes the encoder on every byte sequence |
| `Base64.Shape` | src/proxy/http.rs:151-179 | length 4*ceil(n/3); padding only at the end, its count fixed by n mod 3 |
| `HttpConnect.ReadLine` | src/proxy/http.rs:79-83 | however the stream is cut into reads, a line is everything up to the first line feed and the rest stays pending |
| `HttpConnect.DrainHeaders` | src/proxy/http.rs:100-114 | stops behind the first blank line for every chunking |
| `HttpConnect.TrimMeaning` | src/proxy/http.rs:85-109 | trimming removes exactly the carriage returns and line feeds at the end |
| `HttpConnect.BlankMeaning` | src/proxy/http.rs:109-112 | a line counts as blank if and only if it has nothing else |
| `HttpConnect.DoConnect` | src/proxy/http.rs:47-120 | the outcome is decided by the reply bytes alone unless the write fails or fewer reads succeed than the reply has bytes plus three, and on success prefetched bytes and socket together are exactly the tunnel |
| `HttpConnect.TunnelStartsAfterHead` | src/proxy/http.rs:77-119 | for every reply made of a 200 status line, header lines and their end (a blank line, or the end of the stream), lines ended by LF or CR LF, the tunnel is exactly the bytes behind |
| `HttpConnect.OnlyPositiveRepliesTunnel` | src/proxy/http.rs:77-119 | every accepted reply has that form |
| `HttpConnect.OtherStatusIsDenied` | src/proxy/http.rs:89-98 | a reply is refused with a code if and only if that is the code of its first line, complete or cut, and it is not 200 |
| `HttpConnect.EndOfStreamEndsHeaders` | src/proxy/http.rs:77-119 | a reply without a complete blank line, possibly cut inside a line, is accepted as an empty tunnel if and only if all its lines are decodable and its status is 200 |
| `HttpConnect.StatusLineCode` | src/proxy/http.rs:123-144 | the code is the second space-separated token of a line starting with HTTP/ |
| `HttpConnect.NumberParses` | src/proxy/http.rs:139-143 | an optional plus sign, leading zeros and the decimal text of n parse to n up to 65535 and are refused above |
| `HttpConnect.OnlyNumbersParse` | src/proxy/http.rs:139-143 | nothing else parses |
| `HttpConnect.ReplyWithCode` | src/proxy/http.rs:77-119 | for every version, reason and code written in decimal, header lines and tunnel: code 200 yields the tunnel, any other code is refused with that code |
| `HttpConnect.OkReplyTunnels` | src/proxy/http.rs:77-119 | in particular HTTP/1.1 200 OK |
| `HttpConnect.RequestReadsBack` | src/proxy/http.rs:54-65 | read line by line the request is the CONNECT line, the host line, the credentials line if any and the blank line, if and only if the target contains no line feed |
| `HttpConnect.CredentialsReadBack` | src/proxy/http.rs:59-62 | the credentials line decodes to user, colon and password |
| `HttpConnect.RequestSpelling` | src/proxy/http.rs:54-65 | the fixed parts of the request, spelled out |
| `HttpConnect.HeadEndsWithRequest` | src/proxy/http.rs:54-65 | for a server the header section ends where the request ends, if and only if no line that the target continues on is blank |
| `HttpConnect.TwoBreaksCutRequestShort` | src/proxy/http.rs:54-65 | two line feeds in a row inside the target end the header section early, for any credentials |
| `HttpConnect.TargetCutsRequestShort` | src/proxy/http.rs:54-65 | a concrete such target |
| `Socks5.Connect` | src/proxy/socks5.rs:51-69 | for every server stream: success consumes exactly the server's handshake after the whole conversation took place; it succeeds exactly when the bytes allow it unless fewer than eight reads and writes succeed; in every outcome credentials follow only method 2, CONNECT only no-auth or a successful login, and nothing received is lost |
| `Socks5.NegotiateMethod` | src/proxy/socks5.rs:78-130 | greeting, version and method checks, and what was sent on each outcome |
| `Socks5.GreetingOffers` | src/proxy/socks5.rs:78-95 | the greeting offers no authentication, and a password if and only if there is one |
| `Socks5.Authenticate` | src/proxy/socks5.rs:136-173 | length checks, request and status check; the reply's version byte is not checked |
| `Socks5.SendConnectRequest` | src/proxy/socks5.rs:182-247 | sends exactly the request and consumes exactly the reply |
| `Socks5.SkipAddr` | src/proxy/socks5.rs:250-275 | drains exactly the bound address and port of its type |
| `Socks5.RequestRoundTrip` | src/proxy/socks5.rs:183-213 | an RFC 1928 decoder recovers the target from every request |
| `Socks5.AuthRoundTrip` | src/proxy/socks5.rs:147-152 | an RFC 1929 decoder recovers user and password |
| `Socks5.TunnelFollowsReplies` | src/proxy/socks5.rs:182-275 | for every well-behaved server the handshake ends where the tunnel bytes begin |
| `ProcessTree.ScanTasks` | src/process.rs:168-182 | the children listed by any thread and not seen before, each once; an unreadable file is an error |
| `ProcessTree.Collect` | src/process.rs:158-183 | on any finite process graph: exactly the proper descendants of the root, each once, found after a parent; terminates |
| `ProcessTree.SignalDescendants` | src/process.rs:158-189 | signals them in reverse order, stopping only at a refused signal |
| `ProcessTree.ChildrenFirst` | src/process.rs:184-187 | on a tree every child is signalled before its parent |
| `Reaper.RunsStaySound` | src/process.rs:82-107 | in every run of forks, exits, adoptions and collections each managed process has an older living parent or the reaper, and the command's status is known once it is gone |
| `Reaper.ReachableFromReaper` | src/process.rs:156-157 | every managed process hangs below a child of the reaper |
| `Reaper.EchildMeansDone` | src/process.rs:102-104 | when the reaper has no child left nothing managed remains and the recorded code is the command's exit code or 128 plus its signal |
| `Reaper.ReapReady` | src/process.rs:87-107 | the collecting loop goes on until no child waits to be collected or none is left, keeps the invariant and never ends without a status |
| `Reaper.WaitForCommandTree` | src/process.rs:82-154 | for all looks, clock readings, refusals and signals: exactly the broadcasts and notes that the completed rounds ask for, the returned code is the command's own with nothing managed left, and an error only where one was met |
| `Reaper.EveryRoundBroadcasts` | src/process.rs:109-116 | once a termination signal has been received every completed round broadcasts exactly once |
| `Reaper.EverySignalIsNoted` | src/process.rs:146-152 | the termination signals that end waits are noted, all of them and in order |
| `Reaper.ForwardedNext` | src/process.rs:109-152 | the round after a termination signal forwards it, or sends SIGKILL if the first signal was two seconds ago |
| `Reaper.SignalsAreForwarded` | src/process.rs:109-152 | every received signal is followed by a broadcast before anything else |
| `Reaper.HistoriesAreDisciplined` | src/process.rs:109-125 | every broadcast sends the latest signal before it until two seconds after the first, and SIGKILL from then on |
| `Reaper.BroadcastReachesAll` | src/process.rs:156-189 | the proper descendants of the reaper are exactly the managed processes |
| `Reaper.KillIsFinal` | src/process.rs:109-125 | later signals do not extend the deadline; after SIGKILL at the deadline nothing else is sent |
| `Handshake.ApplyKeeps` | src/main.rs:252-364 | every action of either process, and the end of either at any point, keeps channels, causality and both program points consistent |
| `Handshake.CommandStartsLast` | src/main.rs:286-300 | in every interleaving the command runs only after all listeners are bound and registered and needed id maps are written |
| `Handshake.BytesAreNotConfused` | src/main.rs:263-292 | the byte a waiting child reads is always the acknowledgement or ready byte it waits for |
| `Handshake.NeverStuck` | src/main.rs:252-364 | neither side has a next action if and only if the command runs under a serving parent, or runs with the parent gone, or both are gone |
| `Handshake.RunsSettle` | src/main.rs:252-364 | every run is finite (at most 18 + 2n moves); where it comes to rest a dead child has a dead parent, a child outlives its parent only by running the command, and unless the child ended by itself a dead parent means a dead child if and only if the ready byte was not sent |
| `Handshake.UndisturbedRunsStayAlive` | src/main.rs:252-364 | as long as no process ends by itself both stay alive |
| `Handshake.UndisturbedRunsSucceed` | src/main.rs:252-364 | where such a run comes to rest the command runs under a serving parent, with all listeners registered and needed maps written and acknowledged |
| `Handshake.SetUpCanSucceed` | src/main.rs:252-364 | for every number of published ports, with and without maps, such a run exists |
| `Handshake.CommandRunsPrepared` | src/main.rs:252-301 | before the command runs the child has unshared, brought up loopback, created the device, set up mounts and sent the device, in this order |
| `Handshake.ParentServesPrepared` | src/main.rs:327-364 | before the parent serves it has bound listeners, built the runtime and registered the listeners, in this order |
| `Handshake.NoCommandWithoutReady` | src/main.rs:286-301 | once the parent has died without sending the ready byte, the command never runs |
| `Handshake.OrphanedCommand` | src/main.rs:286-364 | a run in which the parent dies behind the ready byte: the child reads it and starts the command, and nothing is left to stop it |
| `Handshake.ReadControlByte` | src/main.rs:237-250 | retries interruptions; end of file is an error, never a byte |

## Left out

- Syscalls, mounts, TUN configuration and fd passing (src/namespace.rs, src/fd_passing.rs): only the order of the set-up messages is modelled.
- smoltcp itself: segments, windows, timers and retransmission are behind `PollStep`; which 4-tuple a listening socket takes is not modelled, the stored key is a bookkeeping key.
- Wakers, the readiness result of `poll_ready`, `select!` and the 32 s connect timeout: any of them may or may not happen at any step.
- SYN header parsing in src/tun.rs, command line, publish and proxy URL parsing, rule text parsing: the model starts from parsed values.
- Regex syntax and case folding: a pattern is an abstract predicate; only the order of rules is proved.
- UTF-8 validation: an abstract predicate on byte strings, which accepts the empty string where the end of a stream matters; host names are byte strings.
- The bound of 128 on the accept channel and the size limits of the DNS socket's buffers; a reply that finds the send buffer full is dropped by the source.
- Bit operations of base64, DNS and prefix code are written with division and remainder on non-overlapping fields.
- Aliasing of streams: a stream is a value held by its connection, as Rust's ownership guarantees.
- Clock readings: one reading per pass stands for the readings the pass takes for its connections; readings do not run backwards.
- Reaper.WaitForCommandTree: runs over a given list of rounds, because the loop need not end; the length of its waits is not modelled.
- Reaper.EchildMeansDone: assumes process ids are not reused, as the source does.
- Handshake.ReadControlByte: requires that some read is not interrupted, since otherwise the source retries forever.
- Errors are distinguished only where the program acts on them; messages, logging and `Display` text are not modelled.

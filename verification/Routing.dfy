/** From a DNS question to a route: the interceptor and the connection planner. */
module Routing {
  import opened Common
  import opened Targets
  import opened FakeDnsPool
  import opened DnsWire
  import opened Rules

  const DNS_BUF: nat := 1500
  const TYPE_A: u16 := 1

  /** The datagrams one pass reads: it stops after one that does not fit. */
  function Readable(ds: seq<Bytes>): seq<Bytes> {
    if ds == [] || |ds[0]| > DNS_BUF then [] else [ds[0]] + Readable(ds[1..])
  }

  /** The name an A query asks for, if the datagram is one. */
  function NamesIn(d: Bytes, utf8: Utf8): seq<Name> {
    match ParseSpec(d, utf8)
    case Some(q) => if q.qtype == TYPE_A then [q.domain] else []
    case None => []
  }

  /** The names asked for by A queries, in order. */
  function NamesAsked(ds: seq<Bytes>, utf8: Utf8): seq<Name> {
    if ds == [] then []
    else NamesAsked(ds[..|ds| - 1], utf8) + NamesIn(ds[|ds| - 1], utf8)
  }

  /** The address a name is answered with when the allocator's log is `log`. */
  ghost function AddressFor(log: Log, d: Name): u32 {
    var after := ResolveLog(log, d);
    if Known(after, d) then Address(LiveIndex(after, d)) else 0
  }

  ghost function ReplyTo(log: Log, d: Bytes, utf8: Utf8): Option<Bytes> {
    match ParseSpec(d, utf8)
    case None => None
    case Some(q) =>
      Some(if q.qtype == TYPE_A then AResponse(q.id, q.domain, AddressFor(log, q.domain))
           else EmptyResponse(q.id, q.domain, q.qtype))
  }

  ghost function RepliesTo(log: Log, ds: seq<Bytes>, utf8: Utf8): seq<Option<Bytes>> {
    if ds == [] then [] else
      var front := ds[..|ds| - 1];
      RepliesTo(log, front, utf8) + [ReplyTo(ResolveAll(log, NamesAsked(front, utf8)), ds[|ds| - 1], utf8)]
  }

  /** Where a connection to `addr` is meant to go. */
  ghost function TargetOf(log: Log, addr: u32, port: u16): ProxyTarget {
    if i :| Live(log, i) && Address(i) == addr then Domain(log[i], port) else Ip(V4(addr), port)
  }

  class DnsInterceptor {
    const fakeDns: FakeDns

    constructor ()
      ensures fresh(fakeDns) && fakeDns.Valid() && fakeDns.log == []
    {
      fakeDns := new FakeDns();
    }

    method AnswerOne(d: Bytes, utf8: Utf8) returns (reply: Option<Bytes>)
      requires fakeDns.Valid()
      modifies fakeDns
      ensures fakeDns.Valid()
      ensures fakeDns.log == ResolveAll(old(fakeDns.log), NamesIn(d, utf8))
      ensures reply == ReplyTo(old(fakeDns.log), d, utf8)
    {
      ResolveFew(fakeDns.log);
      var parsed := ParseQuery(d, utf8);
      if parsed.None? {
        return None;
      }
      var q := parsed.value;
      if q.qtype == TYPE_A {
        var ip := fakeDns.Resolve(q.domain);
        var bytes := BuildAResponse(q.id, q.domain, ip);
        return Some(bytes);
      }
      var bytes := BuildEmptyResponse(q.id, q.domain, q.qtype);
      return Some(bytes);
    }

    /** Answer the queued datagrams; `replies[i]` answers the i-th one read. */
    method Process(queue: seq<Bytes>, utf8: Utf8) returns (replies: seq<Option<Bytes>>)
      requires fakeDns.Valid()
      modifies fakeDns
      ensures fakeDns.Valid()
      ensures fakeDns.log == ResolveAll(old(fakeDns.log), NamesAsked(Readable(queue), utf8))
      ensures replies == RepliesTo(old(fakeDns.log), Readable(queue), utf8)
    {
      ghost var start, read := fakeDns.log, Readable(queue);
      ReadableIsPrefix(queue);
      replies := [];
      var i := 0;
      while i < |queue| && |queue[i]| <= DNS_BUF
        invariant 0 <= i <= |read|
        invariant fakeDns.Valid()
        invariant fakeDns.log == ResolveAll(start, NamesAsked(read[..i], utf8))
        invariant replies == RepliesTo(start, read[..i], utf8)
        decreases |queue| - i
      {
        assert read[i] == queue[i];
        OneMoreDatagram(start, read, i, utf8);
        var reply := AnswerOne(queue[i], utf8);
        replies := replies + [reply];
        i := i + 1;
      }
      assert read[..|read|] == read;
    }

    method TargetFor(addr: u32, port: u16) returns (target: ProxyTarget)
      requires fakeDns.Valid()
      ensures target == TargetOf(fakeDns.log, addr, port)
    {
      var name: Option<Name> := None;
      if fakeDns.IsFakeIp(addr) {
        name := fakeDns.Lookup(addr);
      }
      if name.Some? {
        TargetOfLive(fakeDns.log, addr, port, name.value);
        return Domain(name.value, port);
      }
      return Ip(V4(addr), port);
    }
  }

  lemma TargetOfLive(log: Log, addr: u32, port: u16, d: Name)
    requires Answers(log, addr, Some(d))
    ensures TargetOf(log, addr, port) == Domain(d, port)
  {
    var i :| Live(log, i) && Address(i) == addr && log[i] == d;
    forall j | Live(log, j) && Address(j) == addr
      ensures j == i
    {
      AddressesDiffer(log, i, j);
    }
  }

  lemma {:induction false} ReadableIsPrefix(ds: seq<Bytes>)
    ensures Readable(ds) <= ds
    ensures forall i | 0 <= i < |Readable(ds)| :: |ds[i]| <= DNS_BUF
    ensures |Readable(ds)| < |ds| ==> |ds[|Readable(ds)|]| > DNS_BUF
  {
    if ds != [] && |ds[0]| <= DNS_BUF {
      ReadableIsPrefix(ds[1..]);
    }
  }

  lemma OneMoreDatagram(log: Log, read: seq<Bytes>, i: nat, utf8: Utf8)
    requires i < |read|
    ensures var before := ResolveAll(log, NamesAsked(read[..i], utf8));
      && ResolveAll(log, NamesAsked(read[..i + 1], utf8)) == ResolveAll(before, NamesIn(read[i], utf8))
      && RepliesTo(log, read[..i + 1], utf8) == RepliesTo(log, read[..i], utf8) + [ReplyTo(before, read[i], utf8)]
  {
    assert read[..i + 1][..i] == read[..i];
    ResolveInTwo(log, NamesAsked(read[..i], utf8), NamesIn(read[i], utf8));
  }

  lemma ResolveFew(log: Log)
    ensures ResolveAll(log, []) == log
    ensures forall d: Name :: ResolveAll(log, [d]) == ResolveLog(log, d)
  {
    forall d: Name
      ensures ResolveAll(log, [d]) == ResolveLog(log, d)
    {
      var one: seq<Name> := [d];
      assert one[..0] == [];
    }
  }

  lemma {:induction false} ResolveInTwo(log: Log, first: seq<Name>, second: seq<Name>)
    ensures ResolveAll(log, first + second) == ResolveAll(ResolveAll(log, first), second)
  {
    if second == [] {
      assert first + second == first;
    } else {
      var front, last := second[..|second| - 1], second[|second| - 1];
      var all := first + second;
      ResolveInTwo(log, first, front);
      assert all[..|all| - 1] == first + front && all[|all| - 1] == last;
    }
  }

  // ---------------------------------------------------------------- planning

  /** The route of a connection the application opened to an endpoint. */
  ghost function Plan(log: Log, specs: seq<RuleSpec>, fallback: ProxyConfig, engine: Engine): ((u32, u16)) -> Route
    requires Accepted(specs)
  {
    (e: (u32, u16)) =>
      var target := TargetOf(log, e.0, e.1);
      Route(target, RouteFor(specs, fallback, engine, target))
  }

  /** The answer to an A query for a dot-free name carries the address of the
      name's live allocation. */
  lemma AnswerCarriesAddress(log: Log, query: Bytes, utf8: Utf8)
    requires Good(log) && ParseSpec(query, utf8).Some? && ParseSpec(query, utf8).value.qtype == 1
    requires forall l | l in ParseName(query[12..], utf8).value.labels :: DotFree(l)
    ensures var q, labels := ParseSpec(query, utf8).value, ParseName(query[12..], utf8).value.labels;
      && Known(ResolveLog(log, q.domain), q.domain)
      && ReadAnswer(ReplyTo(log, query, utf8).value, utf8)
         == Some(Answer(q.id, labels, 300, Address(LiveIndex(ResolveLog(log, q.domain), q.domain))))
  {
    var q, labels := ParseSpec(query, utf8).value, ParseName(query[12..], utf8).value.labels;
    ResolveStaysGood(log, q.domain);
    ParsedNameIsWire(query[12..], utf8);
    AResponseRoundTrip(q.id, labels, AddressFor(log, q.domain), utf8);
  }

  /** How the type of a question decides: a question of type 1 (A) gets one answer,
      the address for the name; any other gets none and allocates nothing; what is
      no question gets no reply. */
  lemma ReplyByType(log: Log, query: Bytes, utf8: Utf8)
    ensures var parsed, reply := ParseSpec(query, utf8), ReplyTo(log, query, utf8);
      && (parsed.None? <==> reply.None?)
      && (parsed.None? ==> NamesIn(query, utf8) == [])
      && (parsed.Some? && parsed.value.qtype == 1 ==>
            && HasHeader(reply.value, parsed.value.id, 1) && NamesIn(query, utf8) == [parsed.value.domain]
            && |reply.value| >= 16
            && reply.value[|reply.value| - 16..] == ARecord(AddressFor(log, parsed.value.domain)))
      && (parsed.Some? && parsed.value.qtype != 1 ==>
            HasHeader(reply.value, parsed.value.id, 0) && NamesIn(query, utf8) == [])
  {
    var parsed := ParseSpec(query, utf8);
    if parsed.Some? {
      var q, ip := parsed.value, AddressFor(log, parsed.value.domain);
      ResponseHeaders(q.id, q.domain, q.qtype, ip);
      EndsWithRecord(q.id, q.domain, ip);
    }
  }

  lemma EndsWithRecord(id: u16, domain: Bytes, ip: u32)
    ensures var r := AResponse(id, domain, ip); |r| >= 16 && r[|r| - 16..] == ARecord(ip)
  {
    var h, name := ResponseHeader(id, 1), NameBytes(domain);
    AResponseFront(id, domain, ip);
    var front := h + (name + (U16(1) + U16(1)));
    Assoc(U16(1), U16(1), ARecord(ip));
    Assoc(name, U16(1) + U16(1), ARecord(ip));
    Assoc(h, name + (U16(1) + U16(1)), ARecord(ip));
    Parts(front, ARecord(ip));
  }

  /** The application connects to an address it was answered with, after any
      further queries. As long as fewer than POOL_SIZE names were allocated after
      the address, the connection is made to the name, by the first domain rule
      that matches it or by the default. */
  lemma ConnectionFollowsAnswer(log: Log, i: nat, later: seq<Bytes>, utf8: Utf8, port: u16,
                                specs: seq<RuleSpec>, fallback: ProxyConfig, engine: Engine)
    requires Good(log) && Live(log, i) && Accepted(specs)
    ensures var after := ResolveAll(log, NamesAsked(later, utf8));
      var route := Plan(after, specs, fallback, engine)((Address(i), port));
      && (|after| - i <= POOL_SIZE ==>
            && route.target == Domain(log[i], port)
            && route.proxy == (match DomainRoute(DomainRules(specs), engine, log[i])
                               case Some(p) => p case None => fallback))
      && (POOL_SIZE < |after| - i <= 2 * POOL_SIZE ==> route.target != Domain(log[i], port))
  {
    var names := NamesAsked(later, utf8);
    var after := ResolveAll(log, names);
    var r := AnswerAt(after, Address(i), port);
    MappingLifetime(log, i, names, r);
  }

  /** From the query's bytes to the route: the client reads an address from the
      reply; as long as fewer than POOL_SIZE names have been allocated after that
      address, connecting to it reaches the name asked for, by its first matching
      domain rule or the default, and during the round after that it does not. A
      name that was new is safe for fewer than POOL_SIZE further questions. */
  lemma QueryToRoute(log: Log, query: Bytes, later: seq<Bytes>, utf8: Utf8, port: u16,
                     specs: seq<RuleSpec>, fallback: ProxyConfig, engine: Engine)
    requires Good(log) && ParseSpec(query, utf8).Some? && ParseSpec(query, utf8).value.qtype == 1
    requires forall l | l in ParseName(query[12..], utf8).value.labels :: DotFree(l)
    requires Accepted(specs)
    ensures var d := ParseSpec(query, utf8).value.domain;
      var answer := ReadAnswer(ReplyTo(log, query, utf8).value, utf8);
      var answered := ResolveLog(log, d);
      var after := ResolveAll(answered, NamesAsked(later, utf8));
      && answer.Some? && answer.value.id == ParseSpec(query, utf8).value.id
      && Known(answered, d)
      && var i := LiveIndex(answered, d);
      var route := Plan(after, specs, fallback, engine)((answer.value.ip, port));
      && (|after| - i <= POOL_SIZE ==>
            && route.target == Domain(d, port)
            && route.proxy == (match DomainRoute(DomainRules(specs), engine, d)
                               case Some(p) => p case None => fallback))
      && (POOL_SIZE < |after| - i <= 2 * POOL_SIZE ==> route.target != Domain(d, port))
      && (!Known(log, d) && |NamesAsked(later, utf8)| < POOL_SIZE ==> |after| - i <= POOL_SIZE)
  {
    var d := ParseSpec(query, utf8).value.domain;
    var answered := ResolveLog(log, d);
    AnswerCarriesAddress(log, query, utf8);
    ResolveStaysGood(log, d);
    var i := LiveIndex(answered, d);
    ConnectionFollowsAnswer(answered, i, later, utf8, port, specs, fallback, engine);
    RunExtends(answered, NamesAsked(later, utf8));
    if !Known(log, d) {
      assert Live(answered, |log|) && answered[|log|] == d;
    }
  }

  lemma AnswerAt(log: Log, addr: u32, port: u16) returns (r: Option<Name>)
    ensures Answers(log, addr, r)
    ensures TargetOf(log, addr, port) == if r.Some? then Domain(r.value, port) else Ip(V4(addr), port)
  {
    if k :| Live(log, k) && Address(k) == addr {
      r := Some(log[k]);
      TargetOfLive(log, addr, port, log[k]);
    } else {
      r := None;
    }
  }

  /** A connection to an address outside the pool keeps its numeric target and is
      routed by the longest matching prefix, or the default. */
  lemma NumericTargetKept(log: Log, addr: u32, port: u16, specs: seq<RuleSpec>, fallback: ProxyConfig, engine: Engine)
    requires Accepted(specs) && (addr < 0xC612_0001 || addr > 0xC613_FFFE)
    ensures var route := Plan(log, specs, fallback, engine)((addr, port));
      && route.target == Ip(V4(addr), port)
      && route.proxy == (match IpRoute(IpRules(specs), addr) case Some(p) => p case None => fallback)
  {
    var r := AnswerAt(log, addr, port);
  }
}

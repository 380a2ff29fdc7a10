/**
 * The SOCKS5 client (sections 3 to 6 of RFC 1928) with username and password
 * authentication (section 2 of RFC 1929), over a server byte stream.
 */
module Socks5 {
  import opened Common
  import opened Targets

  type Bytes = seq<byte>

  const VERSION: byte := 5
  const NO_AUTH: byte := 0
  const USER_PASS: byte := 2
  const AUTH_VERSION: byte := 1
  const ATYP_IPV4: byte := 1
  const ATYP_DOMAIN: byte := 3
  const ATYP_IPV6: byte := 4

  // ---------------------------------------------------------------- messages

  function Greeting(hasAuth: bool): Bytes {
    if hasAuth then [VERSION, 2, NO_AUTH, USER_PASS] else [VERSION, 1, NO_AUTH]
  }

  predicate FitsAuth(user: Bytes, pass: Bytes) {
    |user| <= 255 && |pass| <= 255
  }

  function AuthRequest(user: Bytes, pass: Bytes): Bytes
    requires FitsAuth(user, pass)
  {
    ([AUTH_VERSION, |user|] + user) + ([|pass|] + pass)
  }

  predicate FitsTarget(target: ProxyTarget) {
    target.Domain? ==> |target.host| <= 255
  }

  function PortBytes(port: u16): Bytes {
    [port / 256, port % 256]
  }

  function V4Bytes(n: u32): Bytes {
    [n / 0x100_0000, n / 0x1_0000 % 256, n / 256 % 256, n % 256]
  }

  function AddressBytes(target: ProxyTarget): Bytes
    requires FitsTarget(target)
  {
    match target
    case Ip(V4(bits), _) => [ATYP_IPV4] + V4Bytes(bits)
    case Ip(V6(octets), _) => [ATYP_IPV6] + octets
    case Domain(host, _) => [ATYP_DOMAIN, |host|] + host
  }

  function ConnectRequest(target: ProxyTarget): Bytes
    requires FitsTarget(target)
  {
    [VERSION, 1, 0] + (AddressBytes(target) + PortBytes(target.port))
  }

  // ---------------------------------------------------------------- a server's view

  function DecodeAuth(b: Bytes): Option<Credentials> {
    if |b| < 2 || b[0] != AUTH_VERSION then None else
      var n: int := b[1];
      if |b| < 3 + n then None else
        var m: int := b[2 + n];
        if |b| != 3 + n + m then None else Some((b[2..2 + n], b[3 + n..]))
  }

  /** The target a CONNECT request names, by section 4 of RFC 1928. */
  function DecodeRequest(b: Bytes): Option<ProxyTarget> {
    if |b| < 4 || b[0] != VERSION || b[1] != 1 || b[2] != 0 then None
    else if b[3] == ATYP_IPV4 then
      if |b| != 10 then None else
        Some(Ip(V4(b[4] as int * 0x100_0000 + b[5] as int * 0x1_0000 + b[6] as int * 256 + b[7]),
                b[8] as int * 256 + b[9]))
    else if b[3] == ATYP_IPV6 then
      if |b| != 22 then None else Some(Ip(V6(b[4..20]), b[20] as int * 256 + b[21]))
    else if b[3] == ATYP_DOMAIN then
      if |b| < 5 then None else
        var n: int := b[4];
        if |b| != 7 + n then None else
        Some(Domain(b[5..5 + n], b[5 + n] as int * 256 + b[6 + n]))
    else None
  }

  lemma AuthRoundTrip(user: Bytes, pass: Bytes)
    requires FitsAuth(user, pass)
    ensures DecodeAuth(AuthRequest(user, pass)) == Some((user, pass))
  {
    var b, n := AuthRequest(user, pass), |user|;
    assert b[0] == AUTH_VERSION && b[1] == n && b[2 + n] == |pass|;
    assert b[2..2 + n] == user;
    assert b[3 + n..] == pass;
  }

  lemma V4RoundTrip(n: u32)
    ensures var b := V4Bytes(n);
      b[0] as int * 0x100_0000 + b[1] as int * 0x1_0000 + b[2] as int * 256 + b[3] as int == n
  {
    assert n == n / 256 * 256 + n % 256;
    assert n / 256 == n / 256 / 256 * 256 + n / 256 % 256 && n / 256 / 256 == n / 0x1_0000;
    assert n / 0x1_0000 == n / 0x1_0000 / 256 * 256 + n / 0x1_0000 % 256 && n / 0x1_0000 / 256 == n / 0x100_0000;
  }

  lemma V4RequestRoundTrip(bits: u32, port: u16)
    ensures DecodeRequest(ConnectRequest(Ip(V4(bits), port))) == Some(Ip(V4(bits), port))
  {
    V4RoundTrip(bits);
    var a, p := V4Bytes(bits), PortBytes(port);
    assert ConnectRequest(Ip(V4(bits), port)) == [VERSION, 1, 0, ATYP_IPV4, a[0], a[1], a[2], a[3], p[0], p[1]];
  }

  lemma DomainRequestRoundTrip(host: Name, port: u16)
    requires |host| <= 255
    ensures DecodeRequest(ConnectRequest(Domain(host, port))) == Some(Domain(host, port))
  {
    var p, n := PortBytes(port), |host|;
    var front: Bytes := [VERSION, 1, 0] + [ATYP_DOMAIN, n];
    Assoc([VERSION, 1, 0], [ATYP_DOMAIN, n], host);
    Assoc([VERSION, 1, 0], [ATYP_DOMAIN, n] + host, p);
    InThree(front, host, p);
    assert front == [VERSION, 1, 0, ATYP_DOMAIN, n];
    DecodesDomain(ConnectRequest(Domain(host, port)), host, port);
  }

  lemma DecodesDomain(b: Bytes, host: Name, port: u16)
    requires |host| <= 255 && |b| == 7 + |host| && b[..5] == [VERSION, 1, 0, ATYP_DOMAIN, |host|]
    requires b[5..5 + |host|] == host && b[5 + |host|..] == PortBytes(port)
    ensures DecodeRequest(b) == Some(Domain(host, port))
  {
    var front, last := b[..5], b[5 + |host|..];
    assert b[0] == front[0] && b[1] == front[1] && b[2] == front[2] && b[3] == front[3] && b[4] == front[4];
    assert b[5 + |host|] == last[0] && b[6 + |host|] == last[1];
  }

  lemma InThree(a: Bytes, b: Bytes, c: Bytes)
    ensures var s := (a + b) + c;
      s[..|a|] == a && s[|a|..|a| + |b|] == b && s[|a| + |b|..] == c
  {
  }

  /** Every request names the target it was built for: domain names verbatim. */
  lemma RequestRoundTrip(target: ProxyTarget)
    requires FitsTarget(target)
    ensures DecodeRequest(ConnectRequest(target)) == Some(target)
  {
    match target
    case Ip(V4(bits), port) => V4RequestRoundTrip(bits, port);
    case Ip(V6(octets), port) =>
      var b, p := ConnectRequest(target), PortBytes(port);
      assert b[4..20] == octets && b[20] == p[0] && b[21] == p[1];
    case Domain(host, port) => DomainRequestRoundTrip(host, port);
  }

  // ---------------------------------------------------------------- the server's replies

  /** Length of the CONNECT reply at the front, by its address type. */
  function ReplyLength(s: Bytes): Option<nat> {
    if |s| < 4 then None
    else if s[3] == ATYP_IPV4 then if |s| >= 10 then Some(10) else None
    else if s[3] == ATYP_IPV6 then if |s| >= 22 then Some(22) else None
    else if s[3] == ATYP_DOMAIN then if |s| >= 5 && |s| >= 7 + s[4] as int then Some(7 + s[4] as int) else None
    else None
  }

  /** A complete positive CONNECT reply at the front. */
  function Accepted(s: Bytes): Option<nat> {
    if |s| >= 4 && s[0] == VERSION && s[1] == 0 then ReplyLength(s) else None
  }

  /** Where method choice and login end in the server's stream when they succeed. */
  function LoginEnd(s: Bytes, auth: Option<Credentials>): (n: Option<nat>)
    ensures n.Some? ==> n.value <= |s| && (n.value == 2 || n.value == 4)
  {
    if |s| < 2 || s[0] != VERSION then None
    else if s[1] == NO_AUTH then Some(2)
    else if s[1] == USER_PASS && auth.Some? && FitsAuth(auth.value.0, auth.value.1) then
      if |s| >= 4 && s[3] == 0 then Some(4) else None
    else None
  }

  /** Where the whole handshake ends when it succeeds. */
  function HandshakeEnd(s: Bytes, auth: Option<Credentials>): Option<nat> {
    var n := LoginEnd(s, auth);
    if n.None? then None else After(n.value, Accepted(s[n.value..]))
  }

  function After(n: nat, r: Option<nat>): Option<nat> {
    if r.None? then None else Some(n + r.value)
  }

  // ---------------------------------------------------------------- the client

  datatype Event = Sent(bytes: Bytes) | Got(bytes: Bytes)

  /** `unread` is what the server has yet to deliver, `log` is the conversation, and
      the socket lets `budget` further reads and writes succeed before one fails. */
  datatype Client = Client(unread: Bytes, log: seq<Event>, budget: nat)

  datatype Step = Continue | Stop | IoError

  /** What has been read in a conversation. */
  function GotBytes(log: seq<Event>): Bytes {
    if log == [] then [] else
      var front, e := GotBytes(log[..|log| - 1]), log[|log| - 1];
      if e.Got? then front + e.bytes else front
  }

  /** Nothing the server sends is lost on the way from one point to a later one. */
  ghost predicate Intact(c: Client, d: Client) {
    GotBytes(d.log) + d.unread == GotBytes(c.log) + c.unread
  }

  lemma GotOneMore(log: seq<Event>, e: Event)
    ensures GotBytes(log + [e]) == if e.Got? then GotBytes(log) + e.bytes else GotBytes(log)
  {
    var all := log + [e];
    assert all[..|all| - 1] == log;
  }

  method WriteAll(c: Client, bytes: Bytes) returns (d: Client, step: Step)
    ensures c.budget == 0 ==> step == IoError && d == c
    ensures c.budget > 0 ==> step == Continue && d == Client(c.unread, c.log + [Sent(bytes)], c.budget - 1)
    ensures Intact(c, d)
  {
    if c.budget == 0 {
      return c, IoError;
    }
    GotOneMore(c.log, Sent(bytes));
    return Client(c.unread, c.log + [Sent(bytes)], c.budget - 1), Continue;
  }

  /** `read_exact`; too few bytes stop the handshake. */
  method ReadExact(c: Client, n: nat) returns (d: Client, step: Step, bytes: Bytes)
    ensures step == IoError <==> c.budget == 0
    ensures step == Continue ==>
      |c.unread| >= n && bytes == c.unread[..n] && d == Client(c.unread[n..], c.log + [Got(bytes)], c.budget - 1)
    ensures step == Stop ==> |c.unread| < n
    ensures step != Continue ==> d == c
    ensures Intact(c, d)
  {
    d, bytes := c, [];
    if c.budget == 0 {
      return d, IoError, bytes;
    }
    if |c.unread| < n {
      return d, Stop, bytes;
    }
    bytes := c.unread[..n];
    d := Client(c.unread[n..], c.log + [Got(bytes)], c.budget - 1);
    GotOneMore(c.log, Got(bytes));
    Assoc(GotBytes(c.log), bytes, d.unread);
    assert bytes + d.unread == c.unread;
    step := Continue;
  }

  method NegotiateMethod(c: Client, hasAuth: bool) returns (d: Client, step: Step, chosen: byte)
    ensures step == Continue ==>
      && |c.unread| >= 2 && c.unread[0] == VERSION && chosen == c.unread[1]
      && (chosen == NO_AUTH || (chosen == USER_PASS && hasAuth))
      && c.budget >= 2
      && d == Client(c.unread[2..], c.log + [Sent(Greeting(hasAuth)), Got([VERSION, chosen])], c.budget - 2)
    ensures step == Stop ==>
      |c.unread| < 2 || c.unread[0] != VERSION ||
      !(c.unread[1] == NO_AUTH || (c.unread[1] == USER_PASS && hasAuth))
    ensures step == IoError ==> c.budget < 2
    ensures step != Continue ==>
      c.log <= d.log && OnlyGreeted(d.log[|c.log|..], hasAuth)
    ensures Intact(c, d)
  {
    chosen := 0;
    d, step := WriteAll(c, Greeting(hasAuth));
    if step != Continue {
      return;
    }
    var resp;
    d, step, resp := ReadExact(d, 2);
    if step != Continue {
      assert d.log[|c.log|..] == [Sent(Greeting(hasAuth))];
      return;
    }
    chosen := resp[1];
    assert resp == [c.unread[0], c.unread[1]];
    assert d.log == c.log + [Sent(Greeting(hasAuth)), Got(resp)];
    if resp[0] != VERSION {
      step := Stop;
    } else if chosen == USER_PASS && !hasAuth {
      step := Stop;
    } else if chosen != NO_AUTH && chosen != USER_PASS {
      step := Stop;
    }
    assert d.log[|c.log|..] == [Sent(Greeting(hasAuth)), Got(resp)];
  }

  /** Nothing but a greeting has been sent. */
  predicate OnlyGreeted(log: seq<Event>, hasAuth: bool) {
    |log| <= 2 && (|log| >= 1 ==> log[0] == Sent(Greeting(hasAuth))) && (|log| == 2 ==> log[1].Got?)
  }

  method Authenticate(c: Client, user: Bytes, pass: Bytes) returns (d: Client, step: Step)
    ensures step == Continue ==>
      && FitsAuth(user, pass) && |c.unread| >= 2 && c.unread[1] == 0
      && c.budget >= 2
      && d == Client(c.unread[2..], c.log + [Sent(AuthRequest(user, pass)), Got(c.unread[..2])], c.budget - 2)
    ensures step == Stop ==> !FitsAuth(user, pass) || |c.unread| < 2 || c.unread[1] != 0
    ensures step == IoError ==> c.budget < 2
    ensures Intact(c, d)
    ensures step != Continue ==>
      || d.log == c.log
      || (FitsAuth(user, pass) && d.log == c.log + [Sent(AuthRequest(user, pass))])
      || (FitsAuth(user, pass) && exists r :: d.log == c.log + [Sent(AuthRequest(user, pass)), Got(r)])
  {
    d := c;
    if |user| > 255 {
      return d, Stop;
    }
    if |pass| > 255 {
      return d, Stop;
    }
    var req := [AUTH_VERSION];
    req := req + [|user|];
    req := req + user;
    req := req + [|pass|];
    req := req + pass;
    assert req == AuthRequest(user, pass);
    d, step := WriteAll(c, req);
    if step != Continue {
      return;
    }
    var resp;
    d, step, resp := ReadExact(d, 2);
    if step != Continue {
      return;
    }
    assert d.log == c.log + [Sent(AuthRequest(user, pass)), Got(resp)];
    if resp[1] != 0 {
      step := Stop;
    }
  }

  /** Drain the bound address and port. */
  method SkipAddr(c: Client, atyp: byte) returns (d: Client, step: Step)
    ensures step == Continue ==>
      AddrLength(c.unread, atyp).Some? && d.unread == c.unread[AddrLength(c.unread, atyp).value..]
    ensures step == Stop ==> AddrLength(c.unread, atyp).None?
    ensures step == IoError ==> c.budget < 2
    ensures c.log <= d.log && OnlyGot(d.log[|c.log|..]) && Intact(c, d)
  {
    d := c;
    var bytes;
    if atyp == ATYP_IPV4 {
      d, step, bytes := ReadExact(c, 6);
    } else if atyp == ATYP_IPV6 {
      d, step, bytes := ReadExact(c, 18);
    } else if atyp == ATYP_DOMAIN {
      d, step, bytes := ReadExact(c, 1);
      if step == Continue {
        var total := bytes[0] as int + 2;
        ghost var middle := d;
        d, step, bytes := ReadExact(d, total);
        if step == Continue {
          assert middle.unread[total..] == c.unread[1 + total..];
        }
      }
    } else {
      step := Stop;
    }
  }

  /** Length of an address and port of the given type at the front. */
  function AddrLength(s: Bytes, atyp: byte): Option<nat> {
    if atyp == ATYP_IPV4 then if |s| >= 6 then Some(6) else None
    else if atyp == ATYP_IPV6 then if |s| >= 18 then Some(18) else None
    else if atyp == ATYP_DOMAIN then if |s| >= 1 && |s| >= 3 + s[0] as int then Some(3 + s[0] as int) else None
    else None
  }

  method SendConnectRequest(c: Client, target: ProxyTarget) returns (d: Client, step: Step)
    ensures step == Continue ==>
      && FitsTarget(target) && Accepted(c.unread).Some? && d.unread == c.unread[Accepted(c.unread).value..]
      && c.log + [Sent(ConnectRequest(target))] <= d.log && OnlyGot(d.log[|c.log| + 1..])
    ensures step == Stop ==> !FitsTarget(target) || Accepted(c.unread).None?
    ensures step == IoError ==> c.budget < 4
    ensures Intact(c, d)
    ensures step != Continue ==>
      d.log == c.log ||
      (FitsTarget(target) && c.log + [Sent(ConnectRequest(target))] <= d.log && OnlyGot(d.log[|c.log| + 1..]))
  {
    var req := BuildRequest(target);
    if req.None? {
      return c, Stop;
    }
    d, step := WriteAll(c, req.value);
    if step != Continue {
      return;
    }
    d, step := ReadReply(d);
  }

  /** The request, unless the host name is too long. */
  method BuildRequest(target: ProxyTarget) returns (r: Option<Bytes>)
    ensures r.Some? <==> FitsTarget(target)
    ensures r.Some? ==> r.value == ConnectRequest(target)
  {
    var req := [VERSION, 1, 0];
    match target {
      case Ip(V4(bits), port) =>
        req := req + [ATYP_IPV4];
        req := req + V4Bytes(bits);
        req := req + PortBytes(port);
      case Ip(V6(octets), port) =>
        req := req + [ATYP_IPV6];
        req := req + octets;
        req := req + PortBytes(port);
      case Domain(host, port) =>
        if |host| > 255 {
          return None;
        }
        req := req + [ATYP_DOMAIN];
        req := req + [|host|];
        req := req + host;
        req := req + PortBytes(port);
    }
    assert req == ConnectRequest(target);
    r := Some(req);
  }

  predicate OnlyGot(log: seq<Event>) {
    forall e | e in log :: e.Got?
  }

  method ReadReply(c: Client) returns (d: Client, step: Step)
    ensures step == Continue ==> Accepted(c.unread).Some? && d.unread == c.unread[Accepted(c.unread).value..]
    ensures step == Stop ==> Accepted(c.unread).None?
    ensures step == IoError ==> c.budget < 3
    ensures c.log <= d.log && OnlyGot(d.log[|c.log|..]) && Intact(c, d)
  {
    var hdr;
    d, step, hdr := ReadExact(c, 4);
    if step != Continue {
      return;
    }
    if hdr[0] != VERSION || hdr[1] != 0 {
      return d, Stop;
    }
    ghost var middle := d;
    ReplyAfterHeader(c.unread);
    d, step := SkipAddr(d, hdr[3]);
    assert d.log == middle.log + d.log[|middle.log|..];
    assert d.log[|c.log|..] == [Got(hdr)] + d.log[|middle.log|..];
  }

  lemma ReplyAfterHeader(s: Bytes)
    requires |s| >= 4
    ensures ReplyLength(s) == After(4, AddrLength(s[4..], s[3]))
    ensures forall n: nat | n <= |s| - 4 :: s[4..][n..] == s[4 + n..]
  {
  }

  // ---------------------------------------------------------------- the whole handshake

  /** What may be sent, and when: the greeting first; credentials only after the
      server chose them; the request only after no authentication was chosen or
      authentication succeeded. */
  predicate SentInTurn(log: seq<Event>, i: nat, auth: Option<Credentials>, target: ProxyTarget)
    requires i < |log| && log[i].Sent?
  {
    var bytes := log[i].bytes;
    || (i == 0 && bytes == Greeting(auth.Some?))
    || (i == 2 && log[1] == Got([VERSION, USER_PASS]) && auth.Some? && FitsAuth(auth.value.0, auth.value.1)
        && bytes == AuthRequest(auth.value.0, auth.value.1))
    || (i == 2 && log[1] == Got([VERSION, NO_AUTH]) && FitsTarget(target) && bytes == ConnectRequest(target))
    || (i == 4 && log[1] == Got([VERSION, USER_PASS]) && log[2].Sent? && log[3].Got? && |log[3].bytes| == 2
        && log[3].bytes[1] == 0 && FitsTarget(target) && bytes == ConnectRequest(target))
  }

  predicate InTurn(log: seq<Event>, auth: Option<Credentials>, target: ProxyTarget) {
    forall i | 0 <= i < |log| && log[i].Sent? :: SentInTurn(log, i, auth, target)
  }

  /** For every server stream: on success exactly the server's part of the
      handshake has been consumed, so the next unread byte is the first byte of
      the tunnel, and the whole conversation took place; the handshake succeeds
      exactly when the server's bytes allow it, unless a read or write fails, which
      takes fewer than eight that succeed; and whatever happens, everything was sent
      in turn and nothing the server sent is lost. */
  method Connect(server: Bytes, auth: Option<Credentials>, target: ProxyTarget, budget: nat)
    returns (c: Client, step: Step)
    ensures step == Continue ==>
      && HandshakeEnd(server, auth).Some? && FitsTarget(target)
      && c.unread == server[HandshakeEnd(server, auth).value..]
      && Conversation(c.log, server, auth, target)
    ensures step == Stop ==> HandshakeEnd(server, auth).None? || !FitsTarget(target)
    ensures step == IoError ==> budget < 8
    ensures InTurn(c.log, auth, target) && Intact(Client(server, [], budget), c)
  {
    c, step := Login(server, auth, target, budget);
    if step != Continue {
      return;
    }
    ghost var before := c;
    c, step := SendConnectRequest(c, target);
    RequestInTurn(before.log, c.log, auth, target);
    if step == Continue {
      SliceTwice(server, LoginEnd(server, auth).value, Accepted(before.unread).value);
      assert before.log == Opening(server, auth);
    }
  }

  /** Method choice, and the login if the server chose it. */
  method Login(server: Bytes, auth: Option<Credentials>, ghost target: ProxyTarget, budget: nat)
    returns (c: Client, step: Step)
    ensures step == Continue ==>
      && LoginEnd(server, auth).Some? && c.unread == server[LoginEnd(server, auth).value..]
      && c.log == Opening(server, auth) && c.budget >= budget - 4
    ensures step == Stop ==> LoginEnd(server, auth).None?
    ensures step == IoError ==> budget < 4
    ensures InTurn(c.log, auth, target) && Intact(Client(server, [], budget), c)
  {
    var chosen;
    c, step, chosen := NegotiateMethod(Client(server, [], budget), auth.Some?);
    if step != Continue {
      assert c.log[0..] == c.log;
      GreetingInTurn(c.log, auth, target);
      return;
    }
    assert c.log == [Sent(Greeting(auth.Some?)), Got([VERSION, chosen])];
    GreetingInTurn(c.log, auth, target);
    if chosen == USER_PASS {
      ghost var unread := c.unread;
      c, step := Authenticate(c, auth.value.0, auth.value.1);
      AuthInTurn(c.log, auth, target);
      if step == Continue {
        assert unread[2..] == server[4..] && unread[..2] == server[2..4];
      }
    }
  }

  /** The conversation up to the request: greeting and choice, and the login if it
      was chosen. */
  function Opening(server: Bytes, auth: Option<Credentials>): seq<Event>
    requires LoginEnd(server, auth).Some?
  {
    [Sent(Greeting(auth.Some?)), Got([VERSION, server[1]])]
    + if server[1] == NO_AUTH then [] else
        [Sent(AuthRequest(auth.value.0, auth.value.1)), Got(server[2..4])]
  }

  /** A successful conversation: that, the request, and the reply. */
  predicate Conversation(log: seq<Event>, server: Bytes, auth: Option<Credentials>, target: ProxyTarget)
    requires HandshakeEnd(server, auth).Some? && FitsTarget(target)
  {
    var front := Opening(server, auth) + [Sent(ConnectRequest(target))];
    front <= log && OnlyGot(log[|front|..])
  }

  /** What the greeting offers, as section 3 of RFC 1928 reads it. */
  function DecodeGreeting(b: Bytes): Option<set<byte>> {
    if |b| < 2 || b[0] != VERSION || |b| != 2 + b[1] as int then None else Some(set m | m in b[2..])
  }

  /** No authentication is always offered, and a password exactly if there is one. */
  lemma GreetingOffers(hasAuth: bool)
    ensures var offered := DecodeGreeting(Greeting(hasAuth));
      offered.Some? && forall m: byte :: m in offered.value <==> m == 0 || (m == 2 && hasAuth)
  {
    var offered: Bytes := if hasAuth then [NO_AUTH, USER_PASS] else [NO_AUTH];
    assert Greeting(hasAuth)[2..] == offered;
  }

  lemma SliceTwice(s: Bytes, n: nat, m: nat)
    requires n + m <= |s|
    ensures s[n..][m..] == s[n + m..]
  {
  }

  lemma RequestInTurn(before: seq<Event>, log: seq<Event>, auth: Option<Credentials>, target: ProxyTarget)
    requires InTurn(before, auth, target)
    requires log == before ||
      (FitsTarget(target) && before + [Sent(ConnectRequest(target))] <= log && OnlyGot(log[|before| + 1..]))
    requires |before| >= 2
    requires (|before| == 2 && before[1] == Got([VERSION, NO_AUTH])) ||
      (|before| == 4 && before[1] == Got([VERSION, USER_PASS]) && before[2].Sent? && before[3].Got?
       && |before[3].bytes| == 2 && before[3].bytes[1] == 0)
    ensures InTurn(log, auth, target)
  {
    if log != before {
      var n := |before|;
      assert forall k | 0 <= k < n :: log[k] == before[k];
      assert log[n] == Sent(ConnectRequest(target));
      forall i | n < i < |log|
        ensures log[i].Got?
      {
        assert log[i] == log[n + 1..][i - n - 1];
      }
      forall i | 0 <= i < |log| && log[i].Sent?
        ensures SentInTurn(log, i, auth, target)
      {
        if i < n {
          assert SentInTurn(before, i, auth, target);
        }
      }
    }
  }

  lemma AuthInTurn(log: seq<Event>, auth: Option<Credentials>, target: ProxyTarget)
    requires auth.Some?
    requires |log| >= 2 && log[0] == Sent(Greeting(true)) && log[1] == Got([VERSION, USER_PASS])
    requires |log| > 2 ==>
      FitsAuth(auth.value.0, auth.value.1) && log[2] == Sent(AuthRequest(auth.value.0, auth.value.1))
    requires |log| <= 4 && (|log| == 4 ==> log[3].Got?)
    ensures InTurn(log, auth, target)
  {
    forall i | 0 <= i < |log| && log[i].Sent?
      ensures SentInTurn(log, i, auth, target)
    {
    }
  }

  lemma GreetingInTurn(log: seq<Event>, auth: Option<Credentials>, target: ProxyTarget)
    requires OnlyGreeted(log, auth.Some?)
    ensures InTurn(log, auth, target)
  {
  }

  // ---------------------------------------------------------------- well-behaved servers

  /** An address type and an address of that type. */
  predicate BoundAddress(b: Bytes) {
    || (|b| == 5 && b[0] == ATYP_IPV4)
    || (|b| == 17 && b[0] == ATYP_IPV6)
    || (|b| >= 2 && b[0] == ATYP_DOMAIN && |b| == 2 + b[1] as int)
  }

  lemma ReplyThenTunnel(rsv: byte, bound: Bytes, port: Bytes, tunnel: Bytes)
    requires BoundAddress(bound) && |port| == 2
    ensures Accepted([VERSION, 0, rsv] + bound + port + tunnel) == Some(|bound| + 5)
  {
    var s := [VERSION, 0, rsv] + bound + port + tunnel;
    assert s[0] == VERSION && s[1] == 0 && s[3] == bound[0];
    if bound[0] == ATYP_DOMAIN {
      assert s[4] == bound[1];
    }
  }

  /** For every server that answers by the RFCs, whatever address it reports and
      whatever tunnel bytes follow at once, the handshake ends where they begin. */
  lemma TunnelFollowsReplies(chosen: byte, authVersion: byte, rsv: byte, bound: Bytes, port: Bytes, tunnel: Bytes,
                             auth: Option<Credentials>)
    requires BoundAddress(bound) && |port| == 2
    requires chosen == NO_AUTH || (chosen == USER_PASS && auth.Some? && FitsAuth(auth.value.0, auth.value.1))
    ensures var login := if chosen == USER_PASS then [VERSION, chosen, authVersion, 0] else [VERSION, chosen];
      var server := login + ([VERSION, 0, rsv] + bound + port + tunnel);
      HandshakeEnd(server, auth) == Some(|server| - |tunnel|) && server[|server| - |tunnel|..] == tunnel
  {
    var login := if chosen == USER_PASS then [VERSION, chosen, authVersion, 0] else [VERSION, chosen];
    var reply := [VERSION, 0, rsv] + bound + port;
    ReplyThenTunnel(rsv, bound, port, tunnel);
    Parts(login, reply + tunnel);
    Assoc(login, reply, tunnel);
    Parts(login + reply, tunnel);
  }
}

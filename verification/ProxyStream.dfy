/**
 * The upstream byte stream seen by a forwarded connection: a TCP stream plus
 * the bytes that the proxy handshake had already prefetched.
 */
module ProxyStreams {
  import opened Common

  /** A TCP stream seen from this end: `left` is everything the peer will still
      deliver before its FIN. */
  datatype Tcp = Tcp(left: seq<byte>)

  /** What the kernel answers to one non-blocking read. `Avail(n)` means that up
      to n bytes are readable now, or the FIN when nothing is left. */
  datatype ReadAnswer = Avail(n: nat) | Block | Fault

  /** `Data([])` is the source's `Ok(0)`. */
  datatype ReadResult = Data(bytes: seq<byte>) | WouldBlock | Failed

  function TcpRead(t: Tcp, space: nat, answer: ReadAnswer): (Tcp, ReadResult) {
    match answer
    case Avail(n) =>
      var k := Min(Min(space, |t.left|), Max(n, 1));
      (Tcp(t.left[k..]), Data(t.left[..k]))
    case Block => (t, WouldBlock)
    case Fault => (t, Failed)
  }

  /** `handed` and `written` are histories: every byte a read returned, and every
      byte written to the peer after the handshake. */
  datatype ProxyStream = ProxyStream(inner: Tcp, buffered: seq<byte>, position: nat,
                                     handed: seq<byte>, written: seq<byte>)
  {
    predicate HasBufferedData() {
      position < |buffered|
    }

    function Prefetched(): seq<byte> {
      if HasBufferedData() then buffered[position..] else []
    }

    /** What is still to be read: unread prefetched bytes, then the socket's. */
    function Remaining(): seq<byte> {
      Prefetched() + inner.left
    }

    /** The whole tunnel: what was handed out followed by what is left. */
    function Tunnel(): seq<byte> {
      handed + Remaining()
    }
  }

  function NewStream(inner: Tcp, buffered: seq<byte>): ProxyStream {
    ProxyStream(inner, buffered, 0, [], [])
  }

  /** Specification of one read: the next bytes of what remains, never past the
      prefetched part in the same call. */
  function ReadSpec(s: ProxyStream, space: nat, answer: ReadAnswer): (ProxyStream, ReadResult) {
    if s.HasBufferedData() then
      var bytes := s.Prefetched()[..Min(space, |s.Prefetched()|)];
      (s.(position := s.position + |bytes|, handed := s.handed + bytes), Data(bytes))
    else
      var (inner, result) := TcpRead(s.inner, space, answer);
      (s.(inner := inner, handed := if result.Data? then s.handed + result.bytes else s.handed), result)
  }

  /** The prefetched bytes live in a cursor; reads drain it before they touch the
      socket. */
  method TryRead(s: ProxyStream, space: nat, answer: ReadAnswer)
    returns (after: ProxyStream, result: ReadResult)
    ensures (after, result) == ReadSpec(s, space, answer)
  {
    after := s;
    if s.HasBufferedData() {
      var count := Min(space, |s.buffered| - s.position);
      result := Data(s.buffered[s.position..s.position + count]);
      assert result.bytes == s.Prefetched()[..count];
      after := after.(position := s.position + count, handed := s.handed + result.bytes);
    } else {
      var (inner, answered) := TcpRead(s.inner, space, answer);
      result := answered;
      after := after.(inner := inner);
      if result.Data? {
        after := after.(handed := s.handed + result.bytes);
      }
    }
  }

  lemma PrefetchedReadKeepsTunnel(s: ProxyStream, space: nat, answer: ReadAnswer)
    requires s.HasBufferedData()
    ensures ReadSpec(s, space, answer).0.Tunnel() == s.Tunnel()
  {
    var (t, result) := ReadSpec(s, space, answer);
    assert s.Prefetched() == result.bytes + t.Prefetched();
    Regroup(s.handed, result.bytes, t.Prefetched(), s.inner.left);
  }

  lemma TcpReadSplits(t: Tcp, space: nat, answer: ReadAnswer)
    ensures var (u, result) := TcpRead(t, space, answer);
      if result.Data? then t.left == result.bytes + u.left else u == t
  {
  }

  lemma NothingPrefetched(s: ProxyStream)
    requires !s.HasBufferedData()
    ensures s.Remaining() == s.inner.left && s.Tunnel() == s.handed + s.inner.left
  {
  }

  lemma SocketReadKeepsTunnel(s: ProxyStream, space: nat, answer: ReadAnswer)
    requires !s.HasBufferedData()
    ensures ReadSpec(s, space, answer).0.Tunnel() == s.Tunnel()
  {
    var (t, result) := ReadSpec(s, space, answer);
    TcpReadSplits(s.inner, space, answer);
    NothingPrefetched(s);
    NothingPrefetched(t);
    if result.Data? {
      Assoc(s.handed, result.bytes, t.inner.left);
    }
  }

  /** A read moves bytes from the front of what remains to the history: the
      tunnel as a whole never changes, and end-of-file is reported only when
      nothing remains. */
  lemma ReadKeepsTunnel(s: ProxyStream, space: nat, answer: ReadAnswer)
    ensures var (t, result) := ReadSpec(s, space, answer);
      && t.Tunnel() == s.Tunnel()
      && t.written == s.written
      && (result.Data? ==> t.handed == s.handed + result.bytes && |result.bytes| <= space)
      && (!result.Data? ==> t == s)
      && (result == Data([]) && space > 0 ==> t == s && s.Remaining() == [])
  {
    if s.HasBufferedData() {
      PrefetchedReadKeepsTunnel(s, space, answer);
    } else {
      SocketReadKeepsTunnel(s, space, answer);
      NothingPrefetched(s);
    }
  }

  /** A read does not dawdle: prefetched bytes are handed out whatever the socket
      says, a readable socket yields at least one byte while any remains, and at the
      end it says so. */
  lemma ReadHandsOver(s: ProxyStream, space: nat, answer: ReadAnswer)
    requires space > 0
    ensures var result := ReadSpec(s, space, answer).1;
      && (s.HasBufferedData() ==> result.Data? && |result.bytes| == Min(space, |s.Prefetched()|) > 0)
      && (!s.HasBufferedData() && answer.Avail? ==>
            result.Data? && |result.bytes| == Min(Min(space, |s.Remaining()|), Max(answer.n, 1)))
      && (!s.HasBufferedData() ==> (result.WouldBlock? <==> answer.Block?) && (result.Failed? <==> answer.Fault?))
  {
  }

  lemma Regroup(a: seq<byte>, b: seq<byte>, c: seq<byte>, d: seq<byte>)
    ensures (a + b) + (c + d) == a + ((b + c) + d)
  {
  }

  datatype ReadCall = ReadCall(space: nat, answer: ReadAnswer)

  function ReadAll(s: ProxyStream, calls: seq<ReadCall>): ProxyStream
    decreases |calls|
  {
    if calls == [] then s
    else ReadAll(ReadSpec(s, calls[0].space, calls[0].answer).0, calls[1..])
  }

  /** Any schedule of reads, with any buffer sizes and any chunking, hands out a
      prefix of the tunnel and leaves exactly the rest. */
  lemma {:induction false} ReadsKeepTunnel(s: ProxyStream, calls: seq<ReadCall>)
    ensures ReadAll(s, calls).handed + ReadAll(s, calls).Remaining() == s.handed + s.Remaining()
    decreases |calls|
  {
    if calls != [] {
      ReadKeepsTunnel(s, calls[0].space, calls[0].answer);
      ReadsKeepTunnel(ReadSpec(s, calls[0].space, calls[0].answer).0, calls[1..]);
    }
  }
}

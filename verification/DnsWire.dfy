/**
 * DNS messages as bytes: names (section 3.1 of RFC 1035), the query parser and
 * the two responses the interceptor builds (sections 4.1.1 to 4.1.4).
 */
module DnsWire {
  import opened Common
  import opened Targets

  const DOT: byte := 0x2E

  type Bytes = seq<byte>
  type Labels = seq<Bytes>

  /** Which byte strings are valid UTF-8. */
  type Utf8 = Bytes -> bool

  function U16(n: u16): (b: Bytes)
    ensures |b| == 2
  {
    [n / 256, n % 256]
  }

  function U32(n: u32): (b: Bytes)
    ensures |b| == 4
  {
    [n / 0x100_0000, n / 0x1_0000 % 256, n / 256 % 256, n % 256]
  }

  function ReadU16(d: Bytes, pos: nat): u16
    requires pos + 2 <= |d|
  {
    d[pos] as int * 256 + d[pos + 1]
  }

  function ReadU32(d: Bytes, pos: nat): u32
    requires pos + 4 <= |d|
  {
    d[pos] as int * 0x100_0000 + d[pos + 1] as int * 0x1_0000 + d[pos + 2] as int * 256 + d[pos + 3]
  }

  // ---------------------------------------------------------------- dotted names

  /** `labels.join(".")` */
  function Join(labels: Labels): Bytes {
    if labels == [] then []
    else if |labels| == 1 then labels[0]
    else labels[0] + [DOT] + Join(labels[1..])
  }

  /** `domain.split('.')`; never empty. */
  function Split(s: Bytes): (r: Labels)
    ensures r != []
  {
    if s == [] then [[]]
    else
      var rest := Split(s[1..]);
      if s[0] == DOT then [[]] + rest else [[s[0]] + rest[0]] + rest[1..]
  }

  predicate DotFree(s: Bytes) {
    DOT !in s
  }

  /** Length-prefixed labels; the length is truncated to one byte. */
  function Wire(labels: Labels): Bytes {
    if labels == [] then [] else [|labels[0]| % 256] + labels[0] + Wire(labels[1..])
  }

  function NameBytes(domain: Bytes): Bytes {
    (if domain == [] then [] else Wire(Split(domain))) + [0]
  }

  method EncodeName(buf: Bytes, domain: Bytes) returns (out: Bytes)
    ensures out == buf + NameBytes(domain)
  {
    out := buf;
    if domain != [] {
      var labels := Split(domain);
      for i := 0 to |labels|
        invariant out + Wire(labels[i..]) == buf + Wire(labels)
      {
        var piece := labels[i];
        assert labels[i..][1..] == labels[i + 1..];
        ghost var before := out;
        out := out + [|piece| % 256];
        out := out + piece;
        assert out + Wire(labels[i + 1..]) == before + ([|piece| % 256] + piece + Wire(labels[i + 1..]));
      }
      assert out == buf + Wire(labels);
    }
    out := out + [0];
  }

  // ---------------------------------------------------------------- queries

  datatype Parsed = Parsed(labels: Labels, rest: Bytes)

  /** The labels of the name at the front and the bytes after its terminator. */
  function ParseName(s: Bytes, utf8: Utf8): (r: Option<Parsed>)
    ensures r.Some? ==> |r.value.rest| < |s|
    decreases |s|
  {
    if s == [] then None
    else if s[0] == 0 then Some(Parsed([], s[1..]))
    else if s[0] >= 64 || 1 + s[0] > |s| then None
    else
      var text := s[1..1 + s[0]];
      if !utf8(text) then None else
        match ParseName(s[1 + s[0]..], utf8)
        case None => None
        case Some(p) => Some(Parsed([text] + p.labels, p.rest))
  }

  datatype Query = Query(id: u16, domain: Bytes, qtype: u16)

  /** A header that announces a query with at least one question. */
  predicate QueryHeader(d: Bytes) {
    |d| >= 12 && d[2] < 128 && ReadU16(d, 4) != 0
  }

  function ParseSpec(d: Bytes, utf8: Utf8): Option<Query> {
    if !QueryHeader(d) then None else
      match ParseName(d[12..], utf8)
      case None => None
      case Some(p) =>
        if |p.rest| < 4 then None
        else Some(Query(ReadU16(d, 0), Join(p.labels), ReadU16(p.rest, 0)))
  }

  method ParseQuery(d: Bytes, utf8: Utf8) returns (r: Option<Query>)
    ensures r == ParseSpec(d, utf8)
  {
    if |d| < 12 {
      return None;
    }
    var id := ReadU16(d, 0);
    if d[2] >= 128 {
      return None;
    }
    if ReadU16(d, 4) == 0 {
      return None;
    }
    var labels, pos := ReadLabels(d, utf8);
    if pos == 0 {
      return None;
    }
    Finish(d, labels, pos, utf8);
    if pos + 4 > |d| {
      return None;
    }
    return Some(Query(id, Join(labels), ReadU16(d, pos)));
  }

  /** Decode the name after the header; position 0 reports a malformed name. */
  method ReadLabels(d: Bytes, utf8: Utf8) returns (labels: Labels, pos: nat)
    requires |d| >= 12
    ensures pos == 0 <==> ParseName(d[12..], utf8).None?
    ensures pos != 0 ==> 12 <= pos <= |d| && ParseName(d[12..], utf8) == Some(Parsed(labels, d[pos..]))
  {
    pos := 12;
    labels := [];
    PrefixedNone(ParseName(d[12..], utf8));
    while pos < |d|
      invariant 12 <= pos <= |d|
      invariant ParseName(d[12..], utf8) == Prefixed(labels, ParseName(d[pos..], utf8))
      decreases |d| - pos
    {
      LabelAt(d, labels, pos, utf8);
      var labelLen := d[pos];
      if labelLen == 0 {
        return labels, pos + 1;
      }
      if labelLen >= 64 {
        return [], 0;
      }
      var end := pos + 1 + labelLen;
      if end > |d| {
        return [], 0;
      }
      var text := d[pos + 1..end];
      if !utf8(text) {
        return [], 0;
      }
      labels := labels + [text];
      pos := end;
    }
    return [], 0;
  }

  lemma Finish(d: Bytes, labels: Labels, pos: nat, utf8: Utf8)
    requires 12 <= pos <= |d| && QueryHeader(d) && ParseName(d[12..], utf8) == Some(Parsed(labels, d[pos..]))
    ensures ParseSpec(d, utf8) ==
      if pos + 4 > |d| then None else Some(Query(ReadU16(d, 0), Join(labels), ReadU16(d, pos)))
  {
  }

  /** One step of the parser at an offset into the message. */
  lemma ParseAt(d: Bytes, pos: nat, utf8: Utf8)
    requires pos < |d|
    ensures var next := pos + 1 + d[pos];
      ParseName(d[pos..], utf8) ==
        if d[pos] == 0 then Some(Parsed([], d[pos + 1..]))
        else if d[pos] >= 64 || next > |d| || !utf8(d[pos + 1..next]) then None
        else Prefixed([d[pos + 1..next]], ParseName(d[next..], utf8))
  {
    var s, next := d[pos..], pos + 1 + d[pos];
    assert s[1..] == d[pos + 1..];
    if next <= |d| {
      assert s[1..1 + s[0]] == d[pos + 1..next] && s[1 + s[0]..] == d[next..];
    }
  }

  /** One round of the label loop, with `labels` read so far. */
  lemma LabelAt(d: Bytes, labels: Labels, pos: nat, utf8: Utf8)
    requires pos < |d|
    ensures var next := pos + 1 + d[pos];
      Prefixed(labels, ParseName(d[pos..], utf8)) ==
        if d[pos] == 0 then Some(Parsed(labels, d[pos + 1..]))
        else if d[pos] >= 64 || next > |d| || !utf8(d[pos + 1..next]) then None
        else Prefixed(labels + [d[pos + 1..next]], ParseName(d[next..], utf8))
  {
    var next := pos + 1 + d[pos];
    ParseAt(d, pos, utf8);
    if d[pos] == 0 {
      assert labels + [] == labels;
    } else if next <= |d| {
      PrefixedTwice(labels, d[pos + 1..next], ParseName(d[next..], utf8));
    }
  }

  function Prefixed(front: Labels, p: Option<Parsed>): Option<Parsed> {
    if p.None? then None else Some(Parsed(front + p.value.labels, p.value.rest))
  }

  lemma PrefixedNone(p: Option<Parsed>)
    ensures Prefixed([], p) == p
  {
    if p.Some? {
      assert [] + p.value.labels == p.value.labels;
    }
  }

  lemma PrefixedTwice(front: Labels, piece: Bytes, p: Option<Parsed>)
    ensures Prefixed(front + [piece], p) == Prefixed(front, Prefixed([piece], p))
  {
    if p.Some? {
      assert (front + [piece]) + p.value.labels == front + ([piece] + p.value.labels);
    }
  }

  // ---------------------------------------------------------------- responses

  function ResponseHeader(id: u16, answers: u16): (h: Bytes)
    ensures |h| == 12
  {
    U16(id) + U16(0x8180) + U16(1) + U16(answers) + U16(0) + U16(0)
  }

  function EmptyResponse(id: u16, domain: Bytes, qtype: u16): Bytes {
    ResponseHeader(id, 0) + NameBytes(domain) + U16(qtype) + U16(1)
  }

  function AResponse(id: u16, domain: Bytes, ip: u32): Bytes {
    ResponseHeader(id, 1) + NameBytes(domain) + U16(1) + U16(1)
    + U16(0xC00C) + U16(1) + U16(1) + U32(300) + U16(4) + U32(ip)
  }

  method BuildEmptyResponse(id: u16, domain: Bytes, qtype: u16) returns (pkt: Bytes)
    ensures pkt == EmptyResponse(id, domain, qtype)
  {
    pkt := U16(id) + U16(0x8180) + U16(1) + U16(0) + U16(0) + U16(0);
    pkt := EncodeName(pkt, domain);
    pkt := pkt + U16(qtype);
    pkt := pkt + U16(1);
  }

  method BuildAResponse(id: u16, domain: Bytes, ip: u32) returns (pkt: Bytes)
    ensures pkt == AResponse(id, domain, ip)
  {
    pkt := U16(id) + U16(0x8180) + U16(1) + U16(1) + U16(0) + U16(0);
    pkt := EncodeName(pkt, domain);
    pkt := pkt + U16(1) + U16(1);
    pkt := pkt + U16(0xC00C) + U16(1) + U16(1) + U32(300) + U16(4) + U32(ip);
  }

  // ---------------------------------------------------------------- splitting and joining

  function SplitEach(labels: Labels): Labels {
    if labels == [] then [] else Split(labels[0]) + SplitEach(labels[1..])
  }

  lemma {:induction false} SplitAtDot(a: Bytes, b: Bytes)
    ensures Split(a + [DOT] + b) == Split(a) + Split(b)
  {
    var s := a + [DOT] + b;
    if a == [] {
      assert s == [DOT] + b;
      TailOf([DOT], b);
      assert [] + b == b;
    } else {
      SplitAtDot(a[1..], b);
      TailOf(a, [DOT]);
      TailOf(a + [DOT], b);
      var r, t := Split(a[1..]), Split(b);
      TailOf(r, t);
      if a[0] == DOT {
        Assoc([[]], r, t);
      } else {
        Assoc([[a[0]] + r[0]], r[1..], t);
      }
    }
  }

  /** Joining and splitting again splits every label that contains a dot. */
  lemma {:induction false} SplitOfJoin(labels: Labels)
    requires labels != []
    ensures Split(Join(labels)) == SplitEach(labels)
  {
    if |labels| == 1 {
      assert SplitEach(labels) == Split(labels[0]) + SplitEach([]);
      assert labels[1..] == [];
    } else {
      SplitAtDot(labels[0], Join(labels[1..]));
      SplitOfJoin(labels[1..]);
    }
  }

  lemma {:induction false} SplitDotFree(s: Bytes)
    requires DotFree(s)
    ensures Split(s) == [s]
  {
    if s != [] {
      SplitDotFree(s[1..]);
      assert [s[0]] + s[1..] == s;
    }
  }

  lemma {:induction false} SplitEachDotFree(labels: Labels)
    requires forall l | l in labels :: DotFree(l)
    ensures SplitEach(labels) == labels
  {
    if labels != [] {
      SplitDotFree(labels[0]);
      SplitEachDotFree(labels[1..]);
      assert [labels[0]] + labels[1..] == labels;
    }
  }

  /** Pieces are no longer than what was split, and the first piece of a dotted
      string is shorter. */
  lemma {:induction false} PiecesAreShorter(s: Bytes)
    ensures forall p | p in Split(s) :: |p| <= |s|
    ensures !DotFree(s) ==> |Split(s)[0]| < |s|
  {
    if s != [] {
      PiecesAreShorter(s[1..]);
      var rest := Split(s[1..]);
      forall p | p in Split(s)
        ensures |p| <= |s|
      {
        assert p in rest || p == [] || p == [s[0]] + rest[0];
      }
      if !DotFree(s) && s[0] != DOT {
        assert s == [s[0]] + s[1..];
        assert !DotFree(s[1..]);
      }
    }
  }

  /** Re-encoding a dotted string takes one byte more than the string. */
  lemma {:induction false} WireOfSplitLength(s: Bytes)
    ensures |Wire(Split(s))| == |s| + 1
  {
    if s == [] {
      assert Wire([[]]) == [0] + [] + Wire([]);
    } else {
      WireOfSplitLength(s[1..]);
      var rest := Split(s[1..]);
      if s[0] == DOT {
        assert ([[]] + rest)[1..] == rest;
      } else {
        assert Split(s)[1..] == rest[1..];
        assert |Wire(Split(s))| == 1 + |[s[0]] + rest[0]| + |Wire(rest[1..])|;
      }
    }
  }

  // ---------------------------------------------------------------- parsing and encoding

  /** Labels a query can carry. */
  ghost predicate WireLabels(labels: Labels, utf8: Utf8) {
    forall l | l in labels :: 1 <= |l| <= 63 && utf8(l)
  }

  /** The parser accepts exactly encodings of labels: what it read is the encoding
      of what it returns. */
  lemma {:induction false} ParsedNameIsWire(s: Bytes, utf8: Utf8)
    requires ParseName(s, utf8).Some?
    ensures var p := ParseName(s, utf8).value; s == Wire(p.labels) + ([0] + p.rest) && WireLabels(p.labels, utf8)
    decreases |s|
  {
    var p := ParseName(s, utf8).value;
    if s[0] == 0 {
      assert s == [0] + s[1..];
    } else {
      var text, tail := s[1..1 + s[0]], s[1 + s[0]..];
      ParsedNameIsWire(tail, utf8);
      var q := ParseName(tail, utf8).value;
      assert p == Parsed([text] + q.labels, q.rest);
      WireRebuilt(s, q.labels, q.rest);
    }
  }

  lemma WireRebuilt(s: Bytes, labels: Labels, after: Bytes)
    requires s != [] && 1 + s[0] <= |s| && s[1 + s[0]..] == Wire(labels) + ([0] + after)
    ensures s == Wire([s[1..1 + s[0]]] + labels) + ([0] + after)
  {
    var text := s[1..1 + s[0]];
    Unframe(s, s[0]);
    WireOneMore(text, labels);
    Assoc([s[0]] + text, Wire(labels), [0] + after);
  }

  lemma ParseOne(l: Bytes, tail: Bytes, utf8: Utf8)
    requires 1 <= |l| <= 63 && utf8(l)
    ensures var x: byte := |l|; ParseName(([x] + l) + tail, utf8) == Prefixed([l], ParseName(tail, utf8))
  {
    var x: byte := |l|;
    Framed(x, l, tail);
  }

  lemma ParseOneMore(l: Bytes, rest: Labels, after: Bytes, utf8: Utf8)
    requires 1 <= |l| <= 63 && utf8(l)
    requires ParseName(Wire(rest) + ([0] + after), utf8) == Some(Parsed(rest, after))
    ensures ParseName(Wire([l] + rest) + ([0] + after), utf8) == Some(Parsed([l] + rest, after))
  {
    var x: byte := |l|;
    WireOneMore(l, rest);
    Assoc([x] + l, Wire(rest), [0] + after);
    ParseOne(l, Wire(rest) + ([0] + after), utf8);
  }

  lemma WireOneMore(l: Bytes, rest: Labels)
    requires |l| < 256
    ensures var x: byte := |l|; Wire([l] + rest) == ([x] + l) + Wire(rest)
  {
    TailOf([l], rest);
    assert [] + rest == rest;
  }

  lemma RootParses(after: Bytes, utf8: Utf8)
    ensures ParseName(Wire([]) + ([0] + after), utf8) == Some(Parsed([], after))
  {
    assert Wire([]) + ([0] + after) == [0] + after;
    TailOf([0], after);
  }

  lemma FirstLabel(labels: Labels, utf8: Utf8)
    requires WireLabels(labels, utf8) && labels != []
    ensures 1 <= |labels[0]| <= 63 && utf8(labels[0]) && WireLabels(labels[1..], utf8)
    ensures [labels[0]] + labels[1..] == labels
  {
    assert labels[0] in labels && forall k | k in labels[1..] :: k in labels;
  }

  /** And it accepts every such encoding, whatever follows. */
  lemma {:induction false} WireParses(labels: Labels, after: Bytes, utf8: Utf8)
    requires WireLabels(labels, utf8)
    ensures ParseName(Wire(labels) + ([0] + after), utf8) == Some(Parsed(labels, after))
    decreases |labels|
  {
    if labels == [] {
      RootParses(after, utf8);
    } else {
      FirstLabel(labels, utf8);
      WireParses(labels[1..], after, utf8);
      ParseOneMore(labels[0], labels[1..], after, utf8);
    }
  }

  lemma {:induction false} JoinLength(labels: Labels)
    requires labels != []
    ensures |Wire(labels)| == |Join(labels)| + 1
  {
    if |labels| > 1 {
      JoinLength(labels[1..]);
    } else {
      assert labels[1..] == [];
    }
  }

  lemma JoinEmpty(labels: Labels)
    requires forall l | l in labels :: |l| >= 1
    ensures Join(labels) == [] <==> labels == []
  {
    if labels != [] {
      assert labels[0] in labels;
    }
  }

  lemma {:induction false} SplitEachBounded(labels: Labels, n: nat)
    requires forall l | l in labels :: |l| <= n
    ensures forall p | p in SplitEach(labels) :: |p| <= n
  {
    if labels != [] {
      PiecesAreShorter(labels[0]);
      assert labels[0] in labels;
      SplitEachBounded(labels[1..], n);
    }
  }

  /** Encoding split labels gives the same bytes exactly when no label had a dot:
      the length byte of the first dotted label would differ. */
  lemma {:induction false} WireOfSplitEach(labels: Labels)
    requires forall l | l in labels :: |l| <= 63
    ensures Wire(SplitEach(labels)) == Wire(labels) <==> forall l | l in labels :: DotFree(l)
  {
    if labels != [] {
      var l, rest := labels[0], labels[1..];
      assert l in labels && labels == [l] + rest;
      WireOfSplitEach(rest);
      if DotFree(l) {
        SplitDotFree(l);
        WireSameFirst(l, SplitEach(rest), rest);
      } else {
        WireDiffers(l, rest);
      }
    }
  }

  lemma WireSameFirst(l: Bytes, a: Labels, b: Labels)
    requires |l| < 256
    ensures Wire([l] + a) == Wire([l] + b) <==> Wire(a) == Wire(b)
  {
    WireOneMore(l, a);
    WireOneMore(l, b);
    var x: byte := |l|;
    SameParts([x] + l, Wire(a), [x] + l, Wire(b));
  }

  lemma WireDiffers(l: Bytes, rest: Labels)
    requires !DotFree(l) && |l| < 256
    ensures Wire(Split(l) + SplitEach(rest)) != Wire([l] + rest)
  {
    FirstPieceShorter(l);
    WireStart(Split(l), SplitEach(rest));
    WireStart([l], rest);
  }

  lemma FirstPieceShorter(l: Bytes)
    requires !DotFree(l) && |l| < 256
    ensures |Split(l)[0]| % 256 != |l| % 256
  {
    PiecesAreShorter(l);
  }

  /** An encoding starts with the length of the first label. */
  lemma WireStart(first: Labels, rest: Labels)
    requires first != []
    ensures Wire(first + rest) != [] && Wire(first + rest)[0] == |first[0]| % 256
  {
    TailOf(first, rest);
  }

  // ---------------------------------------------------------------- main results

  /** Round trip: a query message for dot-free labels, with any identifier, flags
      below the QR bit, counts and class, parses to what it asks. */
  lemma QueryRoundTrip(header: Bytes, labels: Labels, qtype: u16, tail: Bytes, utf8: Utf8)
    requires |header| == 12 && QueryHeader(header) && |tail| >= 2
    requires WireLabels(labels, utf8) && forall l | l in labels :: DotFree(l)
    ensures ParseSpec(header + NameBytes(Join(labels)) + U16(qtype) + tail, utf8)
         == Some(Query(ReadU16(header, 0), Join(labels), qtype))
  {
    DotFreeName(labels);
    MessageParts(header, Wire(labels), U16(qtype), tail);
    ParseEncoded(header, labels, U16(qtype) + tail, utf8);
    HeaderFields(U16(qtype), tail);
  }

  lemma ParseEncoded(header: Bytes, labels: Labels, after: Bytes, utf8: Utf8)
    requires |header| == 12 && QueryHeader(header) && |after| >= 4 && WireLabels(labels, utf8)
    ensures ParseSpec(header + (Wire(labels) + ([0] + after)), utf8)
         == Some(Query(ReadU16(header, 0), Join(labels), ReadU16(after, 0)))
  {
    WireParses(labels, after, utf8);
    var s := Wire(labels) + ([0] + after);
    ParseAfterHeader(header, s, Parsed(labels, after), utf8);
  }

  /** Exactly these datagrams are taken for queries: twelve header bytes with the QR
      bit clear and a question announced, an encoded name, and at least four bytes
      more. They parse to identifier, dotted name and type ... */
  lemma QueryAccepted(d: Bytes, header: Bytes, labels: Labels, after: Bytes, utf8: Utf8)
    requires d == header + (Wire(labels) + ([0] + after))
    requires |header| == 12 && header[2] < 0x80 && (header[4] != 0 || header[5] != 0)
    requires |after| >= 4 && WireLabels(labels, utf8)
    ensures ParseSpec(d, utf8)
         == Some(Query(header[0] as int * 256 + header[1], Join(labels), after[0] as int * 256 + after[1]))
  {
    HeaderAnnounces(header);
    ParseEncoded(header, labels, after, utf8);
    assert ReadU16(after, 0) == after[0] as int * 256 + after[1];
  }

  lemma HeaderAnnounces(header: Bytes)
    requires |header| == 12 && header[2] < 0x80 && (header[4] != 0 || header[5] != 0)
    ensures QueryHeader(header) && ReadU16(header, 0) == header[0] as int * 256 + header[1]
  {
  }

  /** ... and nothing else does. */
  lemma OnlyQueriesAccepted(d: Bytes, utf8: Utf8) returns (header: Bytes, labels: Labels, after: Bytes)
    requires ParseSpec(d, utf8).Some?
    ensures d == header + (Wire(labels) + ([0] + after))
    ensures |header| == 12 && header[2] < 0x80 && (header[4] != 0 || header[5] != 0)
    ensures |after| >= 4 && WireLabels(labels, utf8)
  {
    var p := ParseName(d[12..], utf8).value;
    header, labels, after := d[..12], p.labels, p.rest;
    ParsedNameIsWire(d[12..], utf8);
    assert d == d[..12] + d[12..];
  }

  lemma MessageParts(header: Bytes, wire: Bytes, qtype: Bytes, tail: Bytes)
    ensures header + (wire + [0]) + qtype + tail == header + (wire + ([0] + (qtype + tail)))
  {
    Assoc(header + (wire + [0]), qtype, tail);
    Assoc(header, wire + [0], qtype + tail);
    Assoc(wire, [0], qtype + tail);
  }

  lemma ParseAfterHeader(header: Bytes, s: Bytes, p: Parsed, utf8: Utf8)
    requires |header| == 12 && QueryHeader(header) && ParseName(s, utf8) == Some(p) && |p.rest| >= 4
    ensures ParseSpec(header + s, utf8) == Some(Query(ReadU16(header, 0), Join(p.labels), ReadU16(p.rest, 0)))
  {
    Parts(header, s);
    HeaderFields(header, s);
  }

  /** Fields of a message are read from its header, whatever follows. */
  lemma HeaderFields(header: Bytes, rest: Bytes)
    requires |header| >= 2
    ensures ReadU16(header + rest, 0) == ReadU16(header, 0)
    ensures |header| == 12 ==> (QueryHeader(header + rest) <==> QueryHeader(header))
  {
  }

  lemma DotFreeName(labels: Labels)
    requires forall l | l in labels :: DotFree(l) && |l| >= 1
    ensures NameBytes(Join(labels)) == Wire(labels) + [0]
  {
    JoinEmpty(labels);
    if labels != [] {
      SplitOfJoin(labels);
      SplitEachDotFree(labels);
    }
  }

  /** The question section of an accepted query. */
  function Question(d: Bytes, utf8: Utf8): Bytes
    requires ParseSpec(d, utf8).Some?
  {
    d[12..|d| - |ParseName(d[12..], utf8).value.rest| + 4]
  }

  /** For every accepted query, dotted labels included, the rebuilt name is as long
      as the original and no length byte was truncated. */
  lemma RebuiltNameLength(d: Bytes, utf8: Utf8)
    requires ParseSpec(d, utf8).Some?
    ensures var q := ParseSpec(d, utf8).value;
      && |NameBytes(q.domain)| + 4 == |Question(d, utf8)|
      && (forall piece | piece in Split(q.domain) :: |piece| <= 63)
  {
    var q, p := ParseSpec(d, utf8).value, ParseName(d[12..], utf8).value;
    ParsedNameIsWire(d[12..], utf8);
    JoinEmpty(p.labels);
    assert |d[12..]| == |Wire(p.labels)| + 1 + |p.rest|;
    if p.labels != [] {
      JoinLength(p.labels);
      WireOfSplitLength(q.domain);
      SplitOfJoin(p.labels);
      SplitEachBounded(p.labels, 63);
    } else {
      assert Split([]) == [[]];
    }
  }

  lemma SameNameIffDotFree(labels: Labels)
    requires forall l | l in labels :: 1 <= |l| <= 63
    ensures NameBytes(Join(labels)) == Wire(labels) + [0] <==> forall l | l in labels :: DotFree(l)
  {
    JoinEmpty(labels);
    if labels != [] {
      SplitOfJoin(labels);
      WireOfSplitEach(labels);
      var a, b := Wire(SplitEach(labels)), Wire(labels);
      if a + [0] == b + [0] {
        SameParts(a, [0], b, [0]);
      }
    }
  }

  /** The empty response repeats the question byte for byte if and only if the
      class is IN and no label contains a dot. */
  lemma QuestionEchoed(d: Bytes, utf8: Utf8)
    requires ParseSpec(d, utf8).Some?
    ensures var q, p := ParseSpec(d, utf8).value, ParseName(d[12..], utf8).value;
      EmptyResponse(q.id, q.domain, q.qtype)[12..] == Question(d, utf8) <==>
      ReadU16(p.rest, 2) == 1 && forall l | l in p.labels :: DotFree(l)
  {
    var q, p := ParseSpec(d, utf8).value, ParseName(d[12..], utf8).value;
    ParsedNameIsWire(d[12..], utf8);
    RebuiltNameLength(d, utf8);
    SameNameIffDotFree(p.labels);
    QuestionParts(d, utf8);
    EmptyResponseParts(q.id, q.domain, q.qtype);
    SameParts(NameBytes(q.domain), U16(q.qtype) + U16(1), Wire(p.labels) + [0], p.rest[..4]);
    SameEnding(p.rest);
  }

  lemma SameEnding(rest: Bytes)
    requires |rest| >= 4
    ensures U16(ReadU16(rest, 0)) + U16(1) == rest[..4] <==> ReadU16(rest, 2) == 1
  {
    var a, b := [rest[0], rest[1]], [rest[2], rest[3]];
    assert rest[..4] == a + b && U16(ReadU16(rest, 0)) == a;
    SameParts(a, U16(1), a, b);
  }

  lemma EmptyResponseParts(id: u16, domain: Bytes, qtype: u16)
    ensures EmptyResponse(id, domain, qtype)[12..] == NameBytes(domain) + (U16(qtype) + U16(1))
  {
    var h, name := ResponseHeader(id, 0), NameBytes(domain);
    Assoc(h + name, U16(qtype), U16(1));
    Assoc(h, name, U16(qtype) + U16(1));
    Parts(h, name + (U16(qtype) + U16(1)));
  }

  lemma QuestionParts(d: Bytes, utf8: Utf8)
    requires ParseSpec(d, utf8).Some?
    ensures var p := ParseName(d[12..], utf8).value; Question(d, utf8) == (Wire(p.labels) + [0]) + p.rest[..4]
  {
    var p := ParseName(d[12..], utf8).value;
    ParsedNameIsWire(d[12..], utf8);
    var name := Wire(p.labels) + [0];
    Assoc(Wire(p.labels), [0], p.rest);
    FrontOf(name, p.rest, 4);
    assert Question(d, utf8) == d[12..][..|name| + 4];
  }

  lemma FrontOf(a: Bytes, b: Bytes, k: nat)
    requires k <= |b|
    ensures (a + b)[..|a| + k] == a + b[..k]
  {
  }

  // ---------------------------------------------------------------- the client's side

  datatype Answer = Answer(id: u16, labels: Labels, ttl: u32, ip: u32)

  /** A resolver reading a one-answer A response: header with QR set, one question,
      then a record whose name points back to offset 12. */
  function ReadAnswer(pkt: Bytes, utf8: Utf8): Option<Answer> {
    if |pkt| < 12 || pkt[2] < 128 || ReadU16(pkt, 4) != 1 || ReadU16(pkt, 6) != 1 then None else
      match ParseName(pkt[12..], utf8)
      case None => None
      case Some(p) =>
        if |p.rest| < 20 then None else
          var rr := p.rest[4..];
          if ReadU16(p.rest, 0) == 1 && ReadU16(rr, 0) == 0xC00C && ReadU16(rr, 2) == 1 && ReadU16(rr, 4) == 1
             && ReadU16(rr, 10) == 4
          then Some(Answer(ReadU16(pkt, 0), p.labels, ReadU32(rr, 6), ReadU32(rr, 12)))
          else None
  }

  function ARecord(ip: u32): (b: Bytes)
    ensures |b| == 16
  {
    U16(0xC00C) + U16(1) + U16(1) + U32(300) + U16(4) + U32(ip)
  }

  lemma U32RoundTrip(n: u32)
    ensures ReadU32(U32(n), 0) == n
  {
    var a, b, c, d := n / 0x100_0000, n / 0x1_0000 % 256, n / 256 % 256, n % 256;
    assert n == (n / 256) * 256 + d;
    assert n / 256 == (n / 256 / 256) * 256 + c && n / 256 / 256 == n / 0x1_0000;
    assert n / 0x1_0000 == (n / 0x1_0000 / 256) * 256 + b && n / 0x1_0000 / 256 == a;
  }

  lemma ARecordFields(ip: u32)
    ensures var rr := ARecord(ip);
      && ReadU16(rr, 0) == 0xC00C && ReadU16(rr, 2) == 1 && ReadU16(rr, 4) == 1
      && ReadU32(rr, 6) == 300 && ReadU16(rr, 10) == 4 && ReadU32(rr, 12) == ip
  {
    var rr := ARecord(ip);
    U32RoundTrip(ip);
    assert rr[12] == U32(ip)[0] && rr[13] == U32(ip)[1] && rr[14] == U32(ip)[2] && rr[15] == U32(ip)[3];
  }

  /** The A response to a dot-free name reads back as the same identifier, the
      same labels and the address it carries. */
  lemma AResponseRoundTrip(id: u16, labels: Labels, ip: u32, utf8: Utf8)
    requires WireLabels(labels, utf8) && forall l | l in labels :: DotFree(l)
    ensures ReadAnswer(AResponse(id, Join(labels), ip), utf8) == Some(Answer(id, labels, 300, ip))
  {
    DotFreeName(labels);
    AResponseParts(id, labels, ip);
    var h, after := ResponseHeader(id, 1), (U16(1) + U16(1)) + ARecord(ip);
    WireParses(labels, after, utf8);
    ReadAfterHeader(id, Wire(labels) + ([0] + after), Parsed(labels, after), ip, utf8);
  }

  lemma ReadAfterHeader(id: u16, s: Bytes, p: Parsed, ip: u32, utf8: Utf8)
    requires ParseName(s, utf8) == Some(p) && p.rest == (U16(1) + U16(1)) + ARecord(ip)
    ensures ReadAnswer(ResponseHeader(id, 1) + s, utf8) == Some(Answer(id, p.labels, 300, ip))
  {
    var h := ResponseHeader(id, 1);
    Parts(h, s);
    Parts(U16(1) + U16(1), ARecord(ip));
    ARecordFields(ip);
    HeaderInFront(id, 1, s);
    assert p.rest[0] == 0 && p.rest[1] == 1;
  }

  lemma AResponseParts(id: u16, labels: Labels, ip: u32)
    requires NameBytes(Join(labels)) == Wire(labels) + [0]
    ensures AResponse(id, Join(labels), ip)
         == ResponseHeader(id, 1) + (Wire(labels) + ([0] + ((U16(1) + U16(1)) + ARecord(ip))))
  {
    var h, w := ResponseHeader(id, 1), Wire(labels);
    var question := h + (w + [0]) + U16(1) + U16(1);
    RecordGrouping(question, ip);
    MessageParts(h, w, U16(1), U16(1) + ARecord(ip));
    Assoc(h + (w + [0]) + U16(1), U16(1), ARecord(ip));
    Assoc(U16(1), U16(1), ARecord(ip));
  }

  lemma RecordGrouping(q: Bytes, ip: u32)
    ensures q + U16(0xC00C) + U16(1) + U16(1) + U32(300) + U16(4) + U32(ip) == q + ARecord(ip)
  {
    var a, b, c, d := U16(0xC00C), U16(1), U32(300), U16(4);
    Assoc(q, a, b);
    Assoc(q, a + b, b);
    Assoc(q, a + b + b, c);
    Assoc(q, a + b + b + c, d);
    Assoc(q, a + b + b + c + d, U32(ip));
  }

  /** Both responses echo the identifier, carry the flags of a recursive answer
      without error (0x8180) and count their records. */
  lemma ResponseHeaders(id: u16, domain: Bytes, qtype: u16, ip: u32)
    ensures HasHeader(EmptyResponse(id, domain, qtype), id, 0)
    ensures HasHeader(AResponse(id, domain, ip), id, 1)
  {
    HeaderInFront(id, 0, NameBytes(domain) + (U16(qtype) + U16(1)));
    var h, name := ResponseHeader(id, 0), NameBytes(domain);
    Assoc(h + name, U16(qtype), U16(1));
    Assoc(h, name, U16(qtype) + U16(1));
    AResponseFront(id, domain, ip);
    HeaderInFront(id, 1, name + (U16(1) + (U16(1) + ARecord(ip))));
  }

  predicate HasHeader(pkt: Bytes, id: u16, answers: u16) {
    && |pkt| >= 12 && ReadU16(pkt, 0) == id && ReadU16(pkt, 2) == 0x8180 && ReadU16(pkt, 4) == 1
    && ReadU16(pkt, 6) == answers && ReadU16(pkt, 8) == 0 && ReadU16(pkt, 10) == 0
  }

  lemma HeaderInFront(id: u16, answers: u16, rest: Bytes)
    ensures HasHeader(ResponseHeader(id, answers) + rest, id, answers)
  {
    var h := ResponseHeader(id, answers);
    assert h == [id / 256, id % 256, 0x81, 0x80, 0, 1, answers / 256, answers % 256, 0, 0, 0, 0];
    assert forall i | 0 <= i < 12 :: (h + rest)[i] == h[i];
  }

  lemma AResponseFront(id: u16, domain: Bytes, ip: u32)
    ensures AResponse(id, domain, ip)
         == ResponseHeader(id, 1) + (NameBytes(domain) + (U16(1) + (U16(1) + ARecord(ip))))
  {
    var h, name := ResponseHeader(id, 1), NameBytes(domain);
    RecordGrouping(h + name + U16(1) + U16(1), ip);
    Assoc(h + name + U16(1), U16(1), ARecord(ip));
    Assoc(h + name, U16(1), U16(1) + ARecord(ip));
    Assoc(h, name, U16(1) + (U16(1) + ARecord(ip)));
  }
}

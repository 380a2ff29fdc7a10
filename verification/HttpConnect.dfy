/**
 * HTTP CONNECT (section 9.3.6 of RFC 9110): the reply is read through a
 * prefetching reader, and whatever it prefetched past the headers belongs to
 * the tunnel.
 */
module HttpConnect {
  import opened Common
  import opened ProxyStreams
  import Base64

  type Bytes = seq<byte>
  type Utf8 = Bytes -> bool

  const LF: byte := 10
  const CR: byte := 13
  const SPACE: byte := 32
  const BUF_SIZE: nat := 8192

  // ---------------------------------------------------------------- lines

  /** Length of the first line, terminator included; all of it when there is none. */
  function LineLength(s: Bytes): (n: nat)
    ensures n <= |s|
    ensures n == 0 <==> s == []
  {
    if s == [] then 0 else if s[0] == LF then 1 else 1 + LineLength(s[1..])
  }

  /** `trim_end_matches(['\\r', '\\n'])` */
  function Trim(line: Bytes): Bytes {
    if line != [] && (line[|line| - 1] == CR || line[|line| - 1] == LF) then Trim(line[..|line| - 1]) else line
  }

  predicate Blank(line: Bytes) {
    Trim(line) == []
  }

  /** What follows the first blank line; the end of the stream counts as one. An
      undecodable line is an error. */
  function AfterHeaders(s: Bytes, utf8: Utf8): Option<Bytes>
    decreases |s|
  {
    var n := LineLength(s);
    if !utf8(s[..n]) then None
    else if Blank(s[..n]) then Some(s[n..])
    else AfterHeaders(s[n..], utf8)
  }

  // ---------------------------------------------------------------- the status line

  function FirstToken(s: Bytes): (t: Bytes)
    ensures t <= s
  {
    if s == [] || s[0] == SPACE then [] else [s[0]] + FirstToken(s[1..])
  }

  predicate IsDigit(c: byte) {
    48 <= c <= 57
  }

  function DigitsValue(s: Bytes): nat
    requires forall c | c in s :: IsDigit(c)
  {
    if s == [] then 0 else
      assert s[|s| - 1] in s && IsDigit(s[|s| - 1]);
      var last: int := s[|s| - 1];
      DigitsValue(s[..|s| - 1]) * 10 + (last - 48)
  }

  /** `str::parse::<u16>`: an optional plus sign and at least one digit. */
  function ParseU16(s: Bytes): Option<nat> {
    var digits := if s != [] && s[0] == 43 then s[1..] else s;
    if digits == [] || !(forall c | c in digits :: IsDigit(c)) then None
    else if DigitsValue(digits) > 65535 then None
    else Some(DigitsValue(digits))
  }

  const HTTP_SLASH: Bytes := [72, 84, 84, 80, 47]

  function ParseStatusCode(line: Bytes): Option<nat> {
    var version := FirstToken(line);
    if !(HTTP_SLASH <= version) then None
    else if |version| == |line| then None
    else ParseU16(FirstToken(line[|version| + 1..]))
  }

  // ---------------------------------------------------------------- the reply

  /** How the connect ends for a given reply stream, apart from I/O errors. */
  datatype Verdict = Tunnel(bytes: Bytes) | BadText | Malformed | Denied(code: nat)

  function Judge(s: Bytes, utf8: Utf8): Verdict {
    var n := LineLength(s);
    if !utf8(s[..n]) then BadText else
      match ParseStatusCode(Trim(s[..n]))
      case None => Malformed
      case Some(code) =>
        if code != 200 then Denied(code) else
          match AfterHeaders(s[n..], utf8)
          case None => BadText
          case Some(rest) => Tunnel(rest)
  }

  /** The buffered reader: `buffer` has been read from the socket and not consumed,
      and the socket lets `budget` further reads succeed before one fails. */
  datatype Reader = Reader(buffer: Bytes, inner: Tcp, budget: nat) {
    function Pending(): Bytes {
      buffer + inner.left
    }
  }

  datatype LineResult = Line(text: Bytes) | Undecodable | ReadError

  lemma {:induction false} LineAcross(a: Bytes, b: Bytes)
    ensures LF !in a ==> LineLength(a + b) == |a| + LineLength(b)
    ensures LF in a ==> LineLength(a + b) == LineLength(a)
  {
    if a == [] {
      assert a + b == b;
    } else {
      TailOf(a, b);
      LineAcross(a[1..], b);
    }
  }

  /** Position of the first line feed, or -1. */
  method FindLineFeed(s: Bytes) returns (i: int)
    ensures -1 <= i && (i == -1 <==> LF !in s)
    ensures i >= 0 ==> i < |s| && s[i] == LF && LineLength(s) == i + 1
  {
    i := 0;
    while i < |s|
      invariant 0 <= i <= |s| && LF !in s[..i]
    {
      if s[i] == LF {
        LineAcross(s[..i], s[i..]);
        assert s[..i] + s[i..] == s;
        return;
      }
      assert s[..i + 1] == s[..i] + [s[i]];
      i := i + 1;
    }
    assert s[..i] == s;
    i := -1;
  }

  /** Refill an empty buffer: any number of the bytes that remain, up to the
      capacity. */
  method Fill(r: Reader) returns (after: Reader, failed: bool)
    requires r.buffer == []
    ensures failed <==> r.budget == 0
    ensures !failed ==>
      && after.Pending() == r.Pending() && (after.buffer == [] <==> r.Pending() == [])
      && after.budget == r.budget - 1 && |after.buffer| + |after.inner.left| == |r.inner.left|
  {
    if r.budget == 0 {
      return r, true;
    }
    after, failed := r.(budget := r.budget - 1), false;
    if r.inner.left != [] {
      var n: nat :| 1 <= n <= Min(|r.inner.left|, BUF_SIZE);
      var (inner, result) := TcpRead(r.inner, BUF_SIZE, Avail(n));
      after := Reader(result.bytes, inner, r.budget - 1);
      assert result.bytes + inner.left == r.inner.left;
    }
  }

  /** `read_line`: bytes up to and including the first line feed, however the
      stream is cut into reads. */
  method ReadLine(r: Reader, utf8: Utf8) returns (after: Reader, line: LineResult)
    ensures var s := r.Pending(); var n := LineLength(s);
      match line
      case Line(text) => text == s[..n] && utf8(text) && after.Pending() == s[n..]
      case Undecodable => !utf8(s[..n])
      case ReadError => r.budget <= |r.inner.left|
    ensures line.Line? ==> Spent(r, after)
  {
    ghost var s := r.Pending();
    var text: Bytes := [];
    after := r;
    assert [] + s == s;
    while true
      invariant text + after.Pending() == s && LF !in text
      invariant |after.inner.left| <= |r.inner.left|
      invariant after.budget >= r.budget - (|r.inner.left| - |after.inner.left|)
      decreases |after.Pending()|, after.buffer == []
    {
      if after.buffer == [] {
        var failed;
        after, failed := Fill(after);
        if failed {
          return after, ReadError;
        }
        if after.buffer == [] {
          break;
        }
      }
      var i := FindLineFeed(after.buffer);
      if i >= 0 {
        text, after := TakeLine(text, after, i + 1, s);
        line := if utf8(text) then Line(text) else Undecodable;
        return;
      }
      text, after := TakeAll(text, after, s);
    }
    LineAcross(text, []);
    assert s == text + [] == text;
    line := if utf8(text) then Line(text) else Undecodable;
  }

  /** Every read but the one that finds the end of the stream brought a byte. */
  predicate Spent(r: Reader, after: Reader) {
    && |after.inner.left| <= |r.inner.left|
    && after.budget >= r.budget - (|r.inner.left| - |after.inner.left|) - (if after.Pending() == [] then 1 else 0)
  }

  method TakeAll(text: Bytes, r: Reader, ghost s: Bytes) returns (longer: Bytes, after: Reader)
    requires text + r.Pending() == s && LF !in text && LF !in r.buffer
    ensures longer + after.Pending() == s && LF !in longer
    ensures after == r.(buffer := []) && |after.Pending()| + |r.buffer| == |r.Pending()|
  {
    longer := text + r.buffer;
    after := r.(buffer := []);
    Assoc(text, r.buffer, r.inner.left);
    assert after.Pending() == r.inner.left;
  }

  method TakeLine(text: Bytes, r: Reader, k: nat, ghost s: Bytes) returns (line: Bytes, after: Reader)
    requires text + r.Pending() == s && LF !in text && LF in r.buffer && k == LineLength(r.buffer)
    ensures line == s[..LineLength(s)] && after.Pending() == s[LineLength(s)..]
    ensures after == r.(buffer := after.buffer)
  {
    LineAcross(text, r.Pending());
    LineAcross(r.buffer, r.inner.left);
    line := text + r.buffer[..k];
    after := r.(buffer := r.buffer[k..]);
    assert r.buffer == r.buffer[..k] + r.buffer[k..];
    Assoc(r.buffer[..k], r.buffer[k..], r.inner.left);
    Assoc(text, r.buffer[..k], after.Pending());
    Parts(line, after.Pending());
  }

  /** Read and drop header lines up to the blank one. */
  method DrainHeaders(r: Reader, utf8: Utf8) returns (after: Reader, line: LineResult)
    ensures match line
      case Line(_) => AfterHeaders(r.Pending(), utf8) == Some(after.Pending())
      case Undecodable => AfterHeaders(r.Pending(), utf8) == None
      case ReadError => r.budget <= |r.inner.left| + 1
  {
    after := r;
    while true
      invariant AfterHeaders(after.Pending(), utf8) == AfterHeaders(r.Pending(), utf8)
      invariant Spent(r, after)
      decreases |after.Pending()|
    {
      after, line := ReadLine(after, utf8);
      if !line.Line? {
        return;
      }
      if Trim(line.text) == [] {
        return;
      }
    }
  }

  datatype Outcome = Connected(stream: ProxyStream) | Rejected(reason: Verdict) | IoError

  /** Write the request, read the reply, and hand over the stream together with
      what was prefetched beyond the headers. `reply` is everything the proxy will
      send; reads are cut arbitrarily, and `budget` of them succeed. Only a write
      that fails, or too few reads, make an I/O error. */
  method DoConnect(reply: Bytes, target: Bytes, auth: Option<(Bytes, Bytes)>, utf8: Utf8, writable: bool, budget: nat)
    returns (outcome: Outcome, sent: Bytes)
    ensures sent == if writable then Request(target, auth) else []
    ensures outcome.IoError? ==> !writable || budget <= |reply| + 2
    ensures !writable ==> outcome.IoError?
    ensures outcome.Connected? ==>
      && sent == Request(target, auth)
      && Judge(reply, utf8) == Tunnel(outcome.stream.Remaining())
      && outcome.stream.handed == [] && outcome.stream.written == []
    ensures outcome.Rejected? ==> outcome.reason == Judge(reply, utf8) && !outcome.reason.Tunnel?
  {
    var request := BuildRequest(target, auth);
    sent := [];
    if !writable {
      return IoError, sent;
    }
    sent := request;
    var reader, line := ReadLine(Reader([], Tcp(reply), budget), utf8);
    assert [] + reply == reply;
    match line {
      case ReadError => return IoError, sent;
      case Undecodable => return Rejected(BadText), sent;
      case Line(text) =>
        var code := ParseStatusCode(Trim(text));
        if code.None? {
          return Rejected(Malformed), sent;
        }
        if code.value != 200 {
          return Rejected(Denied(code.value)), sent;
        }
    }
    var after, last := DrainHeaders(reader, utf8);
    match last {
      case ReadError => return IoError, sent;
      case Undecodable => return Rejected(BadText), sent;
      case Line(_) => return Connected(NewStream(after.inner, after.buffer)), sent;
    }
  }

  // ---------------------------------------------------------------- the request

  const CRLF: Bytes := [CR, LF]
  const CONNECT_: Bytes := [67, 79, 78, 78, 69, 67, 84, 32]
  const VERSION: Bytes := [32, 72, 84, 84, 80, 47, 49, 46, 49]
  const HOST_: Bytes := [72, 111, 115, 116, 58, 32]
  const BASIC_: Bytes :=
    [80, 114, 111, 120, 121, 45, 65, 117, 116, 104, 111, 114, 105, 122, 97, 116, 105, 111, 110, 58, 32,
     66, 97, 115, 105, 99, 32]

  function Request(target: Bytes, auth: Option<(Bytes, Bytes)>): Bytes {
    CONNECT_ + target + VERSION + CRLF + HOST_ + target + CRLF
    + (if auth.None? then [] else BASIC_ + Base64.Encoded(auth.value.0 + [58] + auth.value.1) + CRLF)
    + CRLF
  }

  method BuildRequest(target: Bytes, auth: Option<(Bytes, Bytes)>) returns (request: Bytes)
    ensures request == Request(target, auth)
  {
    request := CONNECT_ + target + VERSION + CRLF + HOST_ + target + CRLF;
    if auth.Some? {
      var credentials := Base64.Base64Encode(auth.value.0 + [58] + auth.value.1);
      request := request + (BASIC_ + credentials + CRLF);
    } else {
      assert request + [] == request;
    }
    request := request + CRLF;
  }

  // ---------------------------------------------------------------- lines and text

  /** A line with its line feed, which may or may not follow a carriage return. */
  predicate Whole(line: Bytes) {
    line != [] && line[|line| - 1] == LF && LF !in line[..|line| - 1]
  }

  /** The lines of a text as a reader finds them; the last one may lack its end. */
  function SplitLines(s: Bytes): (ls: seq<Bytes>)
    ensures ls == [] <==> s == []
    decreases |s|
  {
    var n := LineLength(s);
    if s == [] then [] else [s[..n]] + SplitLines(s[n..])
  }

  function Joined(lines: seq<Bytes>): Bytes {
    if lines == [] then [] else lines[0] + Joined(lines[1..])
  }

  lemma FirstLine(line: Bytes, rest: Bytes)
    requires Whole(line)
    ensures var s := line + rest; LineLength(s) == |line| && s[..|line|] == line && s[|line|..] == rest
  {
    var text := line[..|line| - 1];
    assert line == text + [LF];
    LineAcross(text, [LF]);
    LineAcross(line, rest);
    Parts(line, rest);
  }

  lemma CutLine(s: Bytes)
    requires LF !in s
    ensures LineLength(s) == |s|
  {
    LineAcross(s, []);
    assert s + [] == s;
  }

  /** A first line is whole or it is all there is. */
  lemma {:induction false} LineForms(s: Bytes)
    ensures var n := LineLength(s); Whole(s[..n]) || (n == |s| && LF !in s)
  {
    if s != [] && s[0] != LF {
      LineForms(s[1..]);
      var n := LineLength(s);
      assert s[..n] == [s[0]] + s[1..][..n - 1];
      if Whole(s[1..][..n - 1]) {
        assert s[..n][..n - 1] == [s[0]] + s[1..][..n - 1][..n - 2];
      } else {
        assert s == [s[0]] + s[1..];
      }
    }
  }

  lemma {:induction false} SplitJoined(lines: seq<Bytes>)
    requires forall l | l in lines :: Whole(l)
    ensures SplitLines(Joined(lines)) == lines
    decreases |lines|
  {
    if lines != [] {
      assert lines[0] in lines && forall l | l in lines[1..] :: l in lines;
      SplitJoined(lines[1..]);
      FirstLine(lines[0], Joined(lines[1..]));
    }
  }

  lemma {:induction false} BlankMeansBreaks(line: Bytes, i: nat)
    requires i < |line| && line[i] != CR && line[i] != LF
    ensures !Blank(line)
    decreases |line|
  {
    if line[|line| - 1] == CR || line[|line| - 1] == LF {
      BlankMeansBreaks(line[..|line| - 1], i);
    }
  }

  predicate IsBreak(c: byte) {
    c == CR || c == LF
  }

  /** Trimming removes exactly the breaks at the end. */
  lemma {:induction false} TrimMeaning(line: Bytes)
    ensures var t := Trim(line);
      && t <= line && (t == [] || !IsBreak(t[|t| - 1]))
      && forall i | |t| <= i < |line| :: IsBreak(line[i])
    decreases |line|
  {
    if line != [] && IsBreak(line[|line| - 1]) {
      TrimMeaning(line[..|line| - 1]);
    }
  }

  /** A line is blank exactly if it has nothing but breaks. */
  lemma BlankMeaning(line: Bytes)
    ensures Blank(line) <==> forall c | c in line :: IsBreak(c)
  {
    TrimMeaning(line);
    if Blank(line) {
      forall c | c in line
        ensures IsBreak(c)
      {
        var i :| 0 <= i < |line| && line[i] == c;
      }
    } else {
      var t := Trim(line);
      assert t[|t| - 1] == line[|t| - 1] && line[|t| - 1] in line;
    }
  }

  lemma TrimText(text: Bytes)
    requires text == [] || !IsBreak(text[|text| - 1])
    ensures Trim(text + CRLF) == text
  {
    TrimMeaning(text + CRLF);
    TrimUnique(text + CRLF, Trim(text + CRLF), text);
  }

  /** Only one prefix is what trimming leaves. */
  lemma TrimUnique(line: Bytes, t: Bytes, u: Bytes)
    requires t <= line && (t == [] || !IsBreak(t[|t| - 1])) && forall i | |t| <= i < |line| :: IsBreak(line[i])
    requires u <= line && (u == [] || !IsBreak(u[|u| - 1])) && forall i | |u| <= i < |line| :: IsBreak(line[i])
    ensures t == u
  {
    assert u == [] || u[|u| - 1] == line[|u| - 1];
    assert t == [] || t[|t| - 1] == line[|t| - 1];
  }

  // ---------------------------------------------------------------- decimal numbers

  /** A number as it is written, most significant digit first. */
  function Decimal(n: nat): (s: Bytes)
    ensures s != []
  {
    var digit: byte := 48 + n % 10;
    if n < 10 then [digit] else Decimal(n / 10) + [digit]
  }

  function Zeros(k: nat): Bytes {
    seq(k, _ => 48)
  }

  predicate Digits(s: Bytes) {
    forall c | c in s :: IsDigit(c)
  }

  lemma LastDigit(s: Bytes, c: byte)
    requires Digits(s) && IsDigit(c)
    ensures Digits(s + [c]) && DigitsValue(s + [c]) == DigitsValue(s) * 10 + (c as int - 48)
  {
    var all := s + [c];
    assert all[..|all| - 1] == s;
  }

  lemma {:induction false} DecimalValue(n: nat)
    ensures Digits(Decimal(n)) && DigitsValue(Decimal(n)) == n
  {
    var digit: byte := 48 + n % 10;
    if n < 10 {
      LastDigit([], digit);
      assert [] + [digit] == [digit];
    } else {
      DecimalValue(n / 10);
      LastDigit(Decimal(n / 10), digit);
    }
  }

  lemma {:induction false} LeadingZeros(k: nat, s: Bytes)
    requires Digits(s)
    ensures Digits(Zeros(k) + s) && DigitsValue(Zeros(k) + s) == DigitsValue(s)
    decreases |s|, k
  {
    if s != [] {
      var front, c := s[..|s| - 1], s[|s| - 1];
      assert c in s && forall d | d in front :: d in s;
      LeadingZeros(k, front);
      LastDigit(Zeros(k) + front, c);
      LastDigit(front, c);
      assert (Zeros(k) + front) + [c] == Zeros(k) + s && front + [c] == s;
    } else if k > 0 {
      LeadingZeros(k - 1, []);
      assert Zeros(k - 1) + [] == Zeros(k - 1) && Zeros(k) + [] == Zeros(k - 1) + [48];
      LastDigit(Zeros(k - 1), 48);
    } else {
      assert Zeros(0) + s == [];
    }
  }

  lemma DecimalStep(v: nat, c: byte)
    requires v > 0 && IsDigit(c)
    ensures Decimal(v * 10 + (c as int - 48)) == Decimal(v) + [c]
  {
    var n := v * 10 + (c as int - 48);
    assert n / 10 == v && n % 10 == c as int - 48;
  }

  lemma ZeroStep(k: nat, c: byte)
    requires IsDigit(c)
    ensures (Zeros(k) + Decimal(0)) + [c] == Zeros(k + 1) + Decimal(c as int - 48)
  {
    assert Zeros(k) + [48] == Zeros(k + 1);
  }

  lemma LastIsDigit(s: Bytes)
    requires Digits(s) && s != []
    ensures var front, c := s[..|s| - 1], s[|s| - 1];
      && s == front + [c] && Digits(front) && IsDigit(c)
      && DigitsValue(s) == DigitsValue(front) * 10 + (c as int - 48)
  {
    var front, c := s[..|s| - 1], s[|s| - 1];
    assert c in s && forall d | d in front :: d in s;
    LastDigit(front, c);
    assert s == front + [c];
  }

  /** Every digit string is the decimal text of its value behind leading zeros. */
  lemma {:induction false} DigitsAreDecimal(s: Bytes) returns (k: nat)
    requires Digits(s) && s != []
    ensures s == Zeros(k) + Decimal(DigitsValue(s))
  {
    var front, c := s[..|s| - 1], s[|s| - 1];
    LastIsDigit(s);
    if front == [] {
      k := 0;
    } else {
      k := DigitsAreDecimal(front);
      if DigitsValue(front) == 0 {
        ZeroStep(k, c);
        k := k + 1;
      } else {
        DecimalStep(DigitsValue(front), c);
        Assoc(Zeros(k), Decimal(DigitsValue(front)), [c]);
      }
    }
  }

  /** Parsing a number that fits: an optional plus sign, leading zeros and its
      decimal text; a larger number is refused. */
  lemma NumberParses(plus: bool, k: nat, n: nat)
    ensures ParseU16((if plus then [43] else []) + (Zeros(k) + Decimal(n))) == if n <= 65535 then Some(n) else None
  {
    var digits := Zeros(k) + Decimal(n);
    DecimalValue(n);
    LeadingZeros(k, Decimal(n));
    DigitsParse(plus, digits);
  }

  lemma DigitsParse(plus: bool, digits: Bytes)
    requires Digits(digits) && digits != []
    ensures ParseU16((if plus then [43] else []) + digits)
         == if DigitsValue(digits) <= 65535 then Some(DigitsValue(digits)) else None
  {
    assert digits[0] in digits && IsDigit(digits[0]);
    if plus {
      assert ([43] + digits)[1..] == digits;
    } else {
      assert [] + digits == digits;
    }
  }

  /** And nothing else parses. */
  lemma OnlyNumbersParse(s: Bytes) returns (plus: bool, k: nat)
    requires ParseU16(s).Some?
    ensures ParseU16(s).value <= 65535
    ensures s == (if plus then [43] else []) + (Zeros(k) + Decimal(ParseU16(s).value))
  {
    plus := s != [] && s[0] == 43;
    var digits := if plus then s[1..] else s;
    k := DigitsAreDecimal(digits);
    if plus {
      assert s == [43] + digits;
    } else {
      assert s == [] + digits;
    }
  }

  // ---------------------------------------------------------------- replies

  predicate HeaderLine(line: Bytes, utf8: Utf8) {
    Whole(line) && !Blank(line) && utf8(line)
  }

  /** What ends the headers: an empty line, or the end of the stream, possibly
      inside a line. */
  predicate EndsHeaders(last: Bytes, tunnel: Bytes, utf8: Utf8) {
    utf8(last) && ((Whole(last) && Blank(last)) || (LF !in last && tunnel == []))
  }

  /** A positive reply: status line, header lines, their end, and the tunnel. */
  predicate Positive(reply: Bytes, status: Bytes, lines: seq<Bytes>, last: Bytes, tunnel: Bytes, utf8: Utf8) {
    && reply == status + (Joined(lines) + (last + tunnel))
    && utf8(status) && ParseStatusCode(Trim(status)) == Some(200)
    && (Whole(status) || (LF !in status && lines == [] && last == [] && tunnel == []))
    && (forall l | l in lines :: HeaderLine(l, utf8))
    && EndsHeaders(last, tunnel, utf8)
  }

  lemma {:induction false} HeadersEndAtBlankLine(lines: seq<Bytes>, last: Bytes, tunnel: Bytes, utf8: Utf8)
    requires utf8([]) && EndsHeaders(last, tunnel, utf8) && forall l | l in lines :: HeaderLine(l, utf8)
    ensures AfterHeaders(Joined(lines) + (last + tunnel), utf8) == Some(tunnel)
    decreases |lines|
  {
    if lines == [] {
      HeadersEnd(last, tunnel, utf8);
      assert Joined(lines) + (last + tunnel) == last + tunnel;
    } else {
      var l, rest := lines[0], lines[1..];
      assert l in lines && forall k | k in rest :: k in lines;
      HeadersEndAtBlankLine(rest, last, tunnel, utf8);
      Assoc(l, Joined(rest), last + tunnel);
      FirstLine(l, Joined(rest) + (last + tunnel));
    }
  }

  lemma HeadersEnd(last: Bytes, tunnel: Bytes, utf8: Utf8)
    requires utf8([]) && EndsHeaders(last, tunnel, utf8)
    ensures AfterHeaders(last + tunnel, utf8) == Some(tunnel)
  {
    if Whole(last) {
      FirstLine(last, tunnel);
    } else {
      assert last + tunnel == last;
      CutLine(last);
      assert last[|last|..] == [] && last[..|last|] == last;
      assert AfterHeaders([], utf8) == Some([]);
    }
  }

  lemma CutFound(s: Bytes, utf8: Utf8)
    requires AfterHeaders(s, utf8).Some? && LF !in s
    ensures AfterHeaders(s, utf8) == Some([]) && EndsHeaders(s, [], utf8)
  {
    CutLine(s);
    assert s[..|s|] == s && s[|s|..] == [];
    assert AfterHeaders([], utf8) != None ==> AfterHeaders([], utf8) == Some([]);
  }

  lemma FirstLineFound(s: Bytes, utf8: Utf8)
    requires AfterHeaders(s, utf8).Some? && LF in s
    ensures var line, rest := s[..LineLength(s)], s[LineLength(s)..];
      && s == line + rest && |rest| < |s| && Whole(line) && utf8(line)
      && (Blank(line) ==> AfterHeaders(s, utf8) == Some(rest))
      && (!Blank(line) ==> AfterHeaders(s, utf8) == AfterHeaders(rest, utf8))
  {
    LineForms(s);
  }

  lemma OneMoreLine(line: Bytes, lines: seq<Bytes>, rest: Bytes, tail: Bytes)
    requires rest == Joined(lines) + tail
    ensures line + rest == Joined([line] + lines) + tail
  {
    JoinedCons(line, lines);
    Assoc(line, Joined(lines), tail);
  }

  lemma {:induction false} HeadersFound(s: Bytes, utf8: Utf8) returns (lines: seq<Bytes>, last: Bytes)
    requires AfterHeaders(s, utf8).Some?
    ensures forall l | l in lines :: HeaderLine(l, utf8)
    ensures var tunnel := AfterHeaders(s, utf8).value;
      s == Joined(lines) + (last + tunnel) && EndsHeaders(last, tunnel, utf8)
    decreases |s|
  {
    if LF !in s {
      CutFound(s, utf8);
      lines, last := [], s;
      assert s == [] + (s + []);
    } else {
      FirstLineFound(s, utf8);
      var line, rest := s[..LineLength(s)], s[LineLength(s)..];
      if Blank(line) {
        lines, last := [], line;
        assert line + rest == [] + (line + rest);
      } else {
        lines, last := HeadersFound(rest, utf8);
        OneMoreLine(line, lines, rest, last + AfterHeaders(s, utf8).value);
        lines := [line] + lines;
      }
    }
  }

  /** The tunnel of a positive reply is what follows the end of its headers,
      however much of it arrived with them ... */
  lemma TunnelStartsAfterHead(reply: Bytes, status: Bytes, lines: seq<Bytes>, last: Bytes, tunnel: Bytes, utf8: Utf8)
    requires utf8([]) && Positive(reply, status, lines, last, tunnel, utf8)
    ensures Judge(reply, utf8) == Tunnel(tunnel)
  {
    HeadersEndAtBlankLine(lines, last, tunnel, utf8);
    if Whole(status) {
      FirstLine(status, Joined(lines) + (last + tunnel));
    } else {
      CutLine(status);
      assert reply == status && status[..|status|] == status && status[|status|..] == [];
      assert Joined(lines) + (last + tunnel) == [];
    }
  }

  /** ... and no other reply is accepted. */
  lemma OnlyPositiveRepliesTunnel(reply: Bytes, utf8: Utf8) returns (status: Bytes, lines: seq<Bytes>, last: Bytes)
    requires Judge(reply, utf8).Tunnel?
    ensures Positive(reply, status, lines, last, Judge(reply, utf8).bytes, utf8)
  {
    var n := LineLength(reply);
    status := reply[..n];
    LineForms(reply);
    if Whole(status) {
      lines, last := HeadersFound(reply[n..], utf8);
    } else {
      lines, last := [], [];
      assert reply[n..] == [] && AfterHeaders([], utf8) == Some([]);
    }
  }

  /** A reply without a complete empty line behind its status line is accepted, as
      a tunnel without bytes, exactly if all its lines are decodable, the last one
      possibly cut short, and the status is 200. */
  lemma EndOfStreamEndsHeaders(reply: Bytes, utf8: Utf8)
    requires utf8([])
    requires forall i | 1 <= i < |SplitLines(reply)| :: !(Whole(SplitLines(reply)[i]) && Blank(SplitLines(reply)[i]))
    ensures var ls := SplitLines(reply);
      && (Judge(reply, utf8).Tunnel? <==>
            ls != [] && (forall l | l in ls :: utf8(l)) && ParseStatusCode(Trim(ls[0])) == Some(200))
      && (Judge(reply, utf8).Tunnel? ==> Judge(reply, utf8).bytes == [])
  {
    if reply != [] {
      var rest := reply[LineLength(reply)..];
      var ls := SplitLines(reply);
      assert ls[1..] == SplitLines(rest);
      forall i | 0 <= i < |SplitLines(rest)|
        ensures !(Whole(SplitLines(rest)[i]) && Blank(SplitLines(rest)[i]))
      {
        assert SplitLines(rest)[i] == ls[i + 1];
      }
      NoBlankLine(rest, utf8);
      assert (forall l | l in ls :: utf8(l)) <==> utf8(ls[0]) && forall l | l in ls[1..] :: utf8(l);
    }
  }

  lemma {:induction false} NoBlankLine(s: Bytes, utf8: Utf8)
    requires utf8([])
    requires forall i | 0 <= i < |SplitLines(s)| :: !(Whole(SplitLines(s)[i]) && Blank(SplitLines(s)[i]))
    ensures AfterHeaders(s, utf8) == if forall l | l in SplitLines(s) :: utf8(l) then Some([]) else None
    decreases |s|
  {
    if s != [] {
      var n := LineLength(s);
      var ls := SplitLines(s);
      assert ls[0] == s[..n] && ls[1..] == SplitLines(s[n..]);
      forall i | 0 <= i < |SplitLines(s[n..])|
        ensures !(Whole(SplitLines(s[n..])[i]) && Blank(SplitLines(s[n..])[i]))
      {
        assert SplitLines(s[n..])[i] == ls[i + 1];
      }
      NoBlankLine(s[n..], utf8);
      LineForms(s);
      assert (forall l | l in ls :: utf8(l)) <==> utf8(ls[0]) && forall l | l in ls[1..] :: utf8(l);
    }
  }

  lemma {:induction false} TokenStops(token: Bytes, rest: Bytes)
    requires SPACE !in token && (rest == [] || rest[0] == SPACE)
    ensures FirstToken(token + rest) == token
  {
    if token == [] {
      assert token + rest == rest;
    } else {
      TailOf(token, rest);
      TokenStops(token[1..], rest);
      assert [token[0]] + token[1..] == token;
    }
  }

  /** The code of a status line `HTTP/x NNN reason`. */
  lemma StatusLineCode(version: Bytes, code: Bytes, reason: Bytes)
    requires SPACE !in version && HTTP_SLASH <= version && SPACE !in code && (reason == [] || reason[0] == SPACE)
    ensures ParseStatusCode(version + ([SPACE] + (code + reason))) == ParseU16(code)
  {
    var rest := [SPACE] + (code + reason);
    TokenStops(version, rest);
    TokenStops(code, reason);
    Parts(version + [SPACE], code + reason);
    Assoc(version, [SPACE], code + reason);
  }

  /** A reply is refused with a code exactly if that is the code of its first line,
      complete or not, and it is not 200; what follows does not matter. */
  lemma OtherStatusIsDenied(status: Bytes, rest: Bytes, code: nat, utf8: Utf8)
    requires Whole(status) || (LF !in status && rest == [])
    ensures Judge(status + rest, utf8) == Denied(code) <==>
      utf8(status) && ParseStatusCode(Trim(status)) == Some(code) && code != 200
  {
    if Whole(status) {
      FirstLine(status, rest);
    } else {
      CutLine(status);
      assert status + rest == status && status[..|status|] == status;
    }
  }

  /** A status line as servers write it: version, code and reason. */
  function StatusLine(version: Bytes, code: nat, reason: Bytes): Bytes {
    version + ([SPACE] + (Decimal(code) + reason))
  }

  predicate ServerVersion(version: Bytes) {
    HTTP_SLASH <= version && SPACE !in version && LF !in version
  }

  predicate Reason(reason: Bytes) {
    (reason == [] || reason[0] == SPACE) && LF !in reason && (reason == [] || reason[|reason| - 1] != CR)
  }

  lemma StatusLineReads(version: Bytes, code: nat, reason: Bytes)
    requires ServerVersion(version) && Reason(reason) && code <= 65535
    ensures var text := StatusLine(version, code, reason);
      Whole(text + CRLF) && ParseStatusCode(Trim(text + CRLF)) == Some(code)
  {
    var text := StatusLine(version, code, reason);
    DecimalValue(code);
    var d := Decimal(code);
    assert forall c | c in d :: IsDigit(c);
    StatusLineCode(version, d, reason);
    NumberParses(false, 0, code);
    assert [] + (Zeros(0) + d) == d;
    assert LF !in text;
    WholeText(text);
    assert text[|text| - 1] == if reason == [] then d[|d| - 1] else reason[|reason| - 1];
    assert d[|d| - 1] in d && text[|text| - 1] in text;
    TrimText(text);
  }

  /** For every server: a reply with code 200, header lines and an empty line is a
      tunnel of the bytes behind it; with any other code it is refused. */
  lemma ReplyWithCode(version: Bytes, code: nat, reason: Bytes, lines: seq<Bytes>, tunnel: Bytes, utf8: Utf8)
    requires ServerVersion(version) && Reason(reason) && code <= 65535
    requires utf8([]) && utf8(CRLF) && utf8(StatusLine(version, code, reason) + CRLF)
    requires forall l | l in lines :: HeaderLine(l, utf8)
    ensures var reply := (StatusLine(version, code, reason) + CRLF) + (Joined(lines) + (CRLF + tunnel));
      Judge(reply, utf8) == if code == 200 then Tunnel(tunnel) else Denied(code)
  {
    var status, rest := StatusLine(version, code, reason) + CRLF, Joined(lines) + (CRLF + tunnel);
    StatusLineReads(version, code, reason);
    if code == 200 {
      WholeText([]);
      assert [] + CRLF == CRLF;
      BlankMeaning(CRLF);
      TunnelStartsAfterHead(status + rest, status, lines, CRLF, tunnel, utf8);
    } else {
      OtherStatusIsDenied(status, rest, code, utf8);
    }
  }

  /** In particular `HTTP/1.1 200 OK`. */
  lemma OkReplyTunnels(lines: seq<Bytes>, tunnel: Bytes, utf8: Utf8)
    requires utf8([]) && utf8(CRLF) && utf8(Ascii("HTTP/1.1 200 OK") + CRLF)
    requires forall l | l in lines :: HeaderLine(l, utf8)
    ensures Judge((Ascii("HTTP/1.1 200 OK") + CRLF) + (Joined(lines) + (CRLF + tunnel)), utf8) == Tunnel(tunnel)
  {
    var version, reason: Bytes := [72, 84, 84, 80, 47, 49, 46, 49], [32, 79, 75];
    assert Decimal(2) == [50] && Decimal(20) == [50, 48] && Decimal(200) == [50, 48, 48];
    assert Ascii("HTTP/1.1 200 OK") == StatusLine(version, 200, reason);
    ReplyWithCode(version, 200, reason, lines, tunnel, utf8);
  }

  /** The bytes of a text of ASCII characters. */
  function Ascii(text: string): Bytes
    requires forall c | c in text :: c < 128 as char
  {
    seq<byte>(|text|, i requires 0 <= i < |text| => assert text[i] in text; text[i] as byte)
  }

  /** The fixed parts of the request, spelled out. */
  lemma RequestSpelling()
    ensures CONNECT_ == Ascii("CONNECT ") && VERSION == Ascii(" HTTP/1.1") && HOST_ == Ascii("Host: ")
    ensures BASIC_ == Ascii("Proxy-Authorization: Basic ") && HTTP_SLASH == Ascii("HTTP/") && CRLF == Ascii("\r\n")
  {
  }

  // ---------------------------------------------------------------- reading the request back

  /** The lines behind the host line: the credentials, if any, and the empty line. */
  function LastLines(auth: Option<(Bytes, Bytes)>): seq<Bytes> {
    (if auth.None? then [] else [BASIC_ + Base64.Encoded(auth.value.0 + [58] + auth.value.1) + CRLF]) + [CRLF]
  }

  /** The lines the request is meant to have. */
  function RequestLines(target: Bytes, auth: Option<(Bytes, Bytes)>): seq<Bytes> {
    [CONNECT_ + target + VERSION + CRLF, HOST_ + target + CRLF] + LastLines(auth)
  }

  lemma JoinedCons(line: Bytes, rest: seq<Bytes>)
    ensures Joined([line] + rest) == line + Joined(rest)
  {
    TailOf([line], rest);
    assert [] + rest == rest;
  }

  lemma RequestParts(target: Bytes, rest: Bytes)
    ensures CONNECT_ + target + VERSION + CRLF + HOST_ + target + CRLF + rest
         == (CONNECT_ + target + VERSION + CRLF) + ((HOST_ + target + CRLF) + rest)
  {
    var first := CONNECT_ + target + VERSION + CRLF;
    Assoc(first, HOST_, target);
    Assoc(first, HOST_ + target, CRLF);
    Assoc(first, HOST_ + target + CRLF, rest);
  }

  lemma RequestIsItsLines(target: Bytes, auth: Option<(Bytes, Bytes)>)
    ensures Request(target, auth) == Joined(RequestLines(target, auth))
  {
    var a, b := CONNECT_ + target + VERSION + CRLF, HOST_ + target + CRLF;
    var open := CONNECT_ + target + VERSION + CRLF + HOST_ + target + CRLF;
    var none: seq<Bytes> := [];
    assert Joined(none) == [] && CRLF + [] == CRLF;
    JoinedCons(CRLF, none);
    if auth.None? {
      assert RequestLines(target, auth) == [a] + ([b] + ([CRLF] + none));
      JoinedCons(b, [CRLF] + none);
      JoinedCons(a, [b] + ([CRLF] + none));
      RequestParts(target, CRLF);
      assert open + [] == open;
    } else {
      var c := BASIC_ + Base64.Encoded(auth.value.0 + [58] + auth.value.1) + CRLF;
      assert RequestLines(target, auth) == [a] + ([b] + ([c] + ([CRLF] + none)));
      JoinedCons(c, [CRLF] + none);
      JoinedCons(b, [c] + ([CRLF] + none));
      JoinedCons(a, [b] + ([c] + ([CRLF] + none)));
      RequestParts(target, c + CRLF);
      Assoc(open, c, CRLF);
    }
  }

  /** Base64 text contains neither CR nor LF. */
  lemma {:induction false} EncodedHasNoBreaks(input: Bytes)
    ensures forall c | c in Base64.Encoded(input) :: c > CR
    decreases |input|
  {
    if input != [] {
      var k := Min(3, |input|);
      EncodedHasNoBreaks(input[k..]);
      ChunkHasNoBreaks(input[..k]);
    }
  }

  lemma ChunkHasNoBreaks(chunk: Bytes)
    requires 1 <= |chunk| <= 3
    ensures forall c | c in Base64.EncodeChunk(chunk) :: c > CR
  {
  }

  lemma WholeText(text: Bytes)
    requires LF !in text
    ensures Whole(text + CRLF)
  {
    var line := text + CRLF;
    assert line[..|line| - 1] == text + [CR];
  }

  lemma LinesAreWhole(target: Bytes, auth: Option<(Bytes, Bytes)>)
    requires LF !in target
    ensures forall l | l in RequestLines(target, auth) :: Whole(l)
  {
    WholeText(CONNECT_ + target + VERSION);
    WholeText(HOST_ + target);
    WholeText([]);
    assert [] + CRLF == CRLF;
    if auth.Some? {
      EncodedHasNoBreaks(auth.value.0 + [58] + auth.value.1);
      WholeText(BASIC_ + Base64.Encoded(auth.value.0 + [58] + auth.value.1));
    }
  }

  /** A server that reads the request line by line finds exactly the CONNECT line,
      the host line, with credentials their line, and the empty line, if and only
      if the target contains no line feed. */
  lemma RequestReadsBack(target: Bytes, auth: Option<(Bytes, Bytes)>)
    ensures SplitLines(Request(target, auth)) == RequestLines(target, auth) <==> LF !in target
  {
    RequestIsItsLines(target, auth);
    if LF !in target {
      LinesAreWhole(target, auth);
      SplitJoined(RequestLines(target, auth));
    } else {
      FirstLineEndsInTarget(target, auth);
    }
  }

  lemma FirstLineEndsInTarget(target: Bytes, auth: Option<(Bytes, Bytes)>)
    requires LF in target
    ensures |SplitLines(Request(target, auth))| > 0
    ensures |SplitLines(Request(target, auth))[0]| < |RequestLines(target, auth)[0]|
  {
    var lines := RequestLines(target, auth);
    RequestIsItsLines(target, auth);
    var rest := (VERSION + CRLF) + Joined(lines[1..]);
    Assoc(CONNECT_ + target, VERSION, CRLF);
    Assoc(CONNECT_, target, VERSION + CRLF);
    Assoc(CONNECT_, target + (VERSION + CRLF), Joined(lines[1..]));
    Assoc(target, VERSION + CRLF, Joined(lines[1..]));
    LineAcross(CONNECT_, target + rest);
    LineAcross(target, rest);
  }

  /** The line with the credentials decodes to user, colon and password. */
  lemma CredentialsReadBack(target: Bytes, user: Bytes, pass: Bytes)
    ensures var line := RequestLines(target, Some((user, pass)))[2];
      && BASIC_ <= line && |line| >= |BASIC_| + 2
      && Base64.Decode(line[|BASIC_|..|line| - 2]) == Some(user + [58] + pass)
  {
    var text := Base64.Encoded(user + [58] + pass);
    var line := BASIC_ + text + CRLF;
    Base64.RoundTrip(user + [58] + pass);
    assert line[|BASIC_|..|line| - 2] == text;
  }

  // ---------------------------------------------------------------- targets with line feeds

  predicate NoneBlank(lines: seq<Bytes>) {
    forall l | l in lines :: !Blank(l)
  }

  /** A server that looks at bytes only. */
  function AnyBytes(): Utf8 {
    (_: Bytes) => true
  }

  /** The headers end where the text ends exactly if only its last line is empty. */
  lemma {:induction false} HeadersEndWithText(s: Bytes)
    ensures var ls := SplitLines(s);
      AfterHeaders(s, AnyBytes()) == Some([]) <==> ls == [] || NoneBlank(ls[..|ls| - 1])
    ensures AfterHeaders(s, AnyBytes()).Some?
    decreases |s|
  {
    if s != [] {
      var n := LineLength(s);
      var ls, more := SplitLines(s), SplitLines(s[n..]);
      HeadersEndWithText(s[n..]);
      if more != [] {
        assert ls[..|ls| - 1] == [s[..n]] + more[..|more| - 1];
      } else {
        assert AfterHeaders([], AnyBytes()) == Some([]);
      }
    }
  }

  lemma {:induction false} SplitTwo(u: Bytes, y: Bytes)
    requires u == [] || u[|u| - 1] == LF
    ensures SplitLines(u + y) == SplitLines(u) + SplitLines(y)
    decreases |u|
  {
    if u == [] {
      assert u + y == y;
    } else {
      var n := LineLength(u);
      LineForms(u);
      LineAcross(u, y);
      assert (u + y)[..n] == u[..n] && (u + y)[n..] == u[n..] + y;
      SplitTwo(u[n..], y);
    }
  }

  lemma SplitBehind(x: Bytes, y: Bytes)
    requires LF !in x && y != []
    ensures SplitLines(x + y) == [x + SplitLines(y)[0]] + SplitLines(y)[1..]
  {
    var n := LineLength(y);
    LineAcross(x, y);
    assert (x + y)[..|x| + n] == x + y[..n] && (x + y)[|x| + n..] == y[n..];
  }

  /** Up to the last line feed, and behind it. */
  lemma {:induction false} LastBreak(target: Bytes) returns (u: Bytes, v: Bytes)
    ensures target == u + v && (u == [] || u[|u| - 1] == LF) && LF !in v
  {
    if target == [] || target[|target| - 1] == LF {
      u, v := target, [];
    } else {
      var front := target[..|target| - 1];
      u, v := LastBreak(front);
      v := v + [target[|target| - 1]];
    }
  }

  /** Ending a text with CR LF, or with more in front of it, changes its last line
      only. */
  lemma LinesOfEnded(u: Bytes, v: Bytes, more: Bytes)
    requires (u == [] || u[|u| - 1] == LF) && LF !in v && LF !in more
    ensures SplitLines((u + v) + (more + CRLF)) == SplitLines(u) + [(v + more) + CRLF]
  {
    var line := (v + more) + CRLF;
    Assoc(u, v, more + CRLF);
    Assoc(v, more, CRLF);
    SplitTwo(u, line);
    WholeText(v + more);
    SplitJoined([line]);
    JoinedCons(line, []);
    assert [line] + [] == [line] && line + [] == line;
  }

  /** Behind a visible prefix the first line is not empty. */
  lemma BehindPrefix(x: Bytes, y: Bytes)
    requires Visible(x) && y != []
    ensures NoneBlank(SplitLines(x + y)) <==> NoneBlank(SplitLines(y)[1..])
  {
    SplitBehind(x, y);
    BlankMeansBreaks(x + SplitLines(y)[0], 0);
  }

  /** The lines a target continues on, once CR LF has been appended. */
  function Continuation(target: Bytes): seq<Bytes> {
    SplitLines(target + CRLF)[1..]
  }

  /** An empty line inside the CONNECT line is also one inside the host line. */
  lemma VersionEndsLine(target: Bytes)
    ensures NoneBlank(Continuation(target)) ==> NoneBlank(SplitLines(target + (VERSION + CRLF))[1..])
  {
    var u, v := LastBreak(target);
    LinesOfEnded(u, v, VERSION);
    LinesOfEnded(u, v, []);
    assert [] + CRLF == CRLF;
    BlankMeansBreaks((v + VERSION) + CRLF, |v|);
    var la, lb := SplitLines(target + (VERSION + CRLF)), SplitLines(target + CRLF);
    forall l | l in la[1..]
      ensures NoneBlank(Continuation(target)) ==> !Blank(l)
    {
      var i :| 1 <= i < |la| && la[i] == l;
      if i < |la| - 1 {
        assert lb[i] == l && lb[1..][i - 1] == l;
      }
    }
  }

  /** The request as three texts, each ending with a line feed. */
  lemma RequestInThree(target: Bytes, auth: Option<(Bytes, Bytes)>)
    ensures Request(target, auth)
         == (CONNECT_ + (target + (VERSION + CRLF))) + ((HOST_ + (target + CRLF)) + Joined(LastLines(auth)))
  {
    var a, b, rest := CONNECT_ + target + VERSION + CRLF, HOST_ + target + CRLF, LastLines(auth);
    RequestIsItsLines(target, auth);
    assert RequestLines(target, auth) == [a] + ([b] + rest);
    JoinedCons(b, rest);
    JoinedCons(a, [b] + rest);
    Assoc(CONNECT_ + target, VERSION, CRLF);
    Assoc(CONNECT_, target, VERSION + CRLF);
    Assoc(HOST_, target, CRLF);
  }

  /** Behind the host line only the last line is empty. */
  lemma LastLinesSplit(auth: Option<(Bytes, Bytes)>)
    ensures var ls := LastLines(auth);
      SplitLines(Joined(ls)) == ls && NoneBlank(ls[..|ls| - 1]) && |ls| >= 1
  {
    var ls := LastLines(auth);
    LinesAreWhole([], auth);
    assert forall l | l in ls :: l in RequestLines([], auth);
    SplitJoined(ls);
    if auth.Some? {
      BlankMeansBreaks(ls[0], 0);
      assert ls[..1] == [ls[0]];
    }
  }

  predicate Visible(x: Bytes) {
    LF !in x && x != [] && x[0] > CR
  }

  predicate EndsInBreak(s: Bytes) {
    s != [] && s[|s| - 1] == LF
  }

  /** Two prefixed texts and closing lines. */
  lemma HeadEnd(request: Bytes, x: Bytes, a: Bytes, y: Bytes, b: Bytes, ls: seq<Bytes>)
    requires request == (x + a) + ((y + b) + Joined(ls))
    requires Visible(x) && Visible(y) && EndsInBreak(a) && EndsInBreak(b)
    requires ls != [] && SplitLines(Joined(ls)) == ls && NoneBlank(ls[..|ls| - 1])
    ensures AfterHeaders(request, AnyBytes()) == Some([]) <==>
      NoneBlank(SplitLines(a)[1..]) && NoneBlank(SplitLines(b)[1..])
  {
    SplitThree(request, x + a, y + b, Joined(ls));
    BehindPrefix(x, a);
    BehindPrefix(y, b);
    OnlyLast(request, SplitLines(x + a), SplitLines(y + b), ls);
  }

  lemma SplitThree(text: Bytes, a: Bytes, b: Bytes, c: Bytes)
    requires EndsInBreak(a) && EndsInBreak(b) && text == a + (b + c)
    ensures SplitLines(text) == SplitLines(a) + (SplitLines(b) + SplitLines(c))
  {
    SplitTwo(a, b + c);
    SplitTwo(b, c);
  }

  /** For a server the header section ends where the request ends, if and only if
      no line that the target continues on is empty. Otherwise the target cuts the
      request short, and what follows is left to be read as something else. */
  lemma HeadEndsWithRequest(target: Bytes, auth: Option<(Bytes, Bytes)>)
    ensures AfterHeaders(Request(target, auth), AnyBytes()) == Some([]) <==> NoneBlank(Continuation(target))
  {
    RequestInThree(target, auth);
    LastLinesSplit(auth);
    VersionEndsLine(target);
    HeadEnd(Request(target, auth), CONNECT_, target + (VERSION + CRLF), HOST_, target + CRLF, LastLines(auth));
  }

  lemma OnlyLast(text: Bytes, a: seq<Bytes>, b: seq<Bytes>, c: seq<Bytes>)
    requires c != [] && SplitLines(text) == a + (b + c)
    ensures AfterHeaders(text, AnyBytes()) == Some([]) <==> NoneBlank(a) && NoneBlank(b) && NoneBlank(c[..|c| - 1])
  {
    var all := a + (b + c);
    assert all[..|all| - 1] == a + (b + c[..|c| - 1]);
    HeadersEndWithText(text);
  }

  /** Such targets exist, and the name of a DNS query may be one: two line feeds in
      a row are enough. */
  lemma TwoBreaksCutRequestShort(u: Bytes, v: Bytes, auth: Option<(Bytes, Bytes)>)
    requires LF !in u
    ensures AfterHeaders(Request(u + ([LF] + ([LF] + v)), auth), AnyBytes()) != Some([])
  {
    var target := u + ([LF] + ([LF] + v));
    SecondLine(u, v);
    assert Continuation(target)[0] == [LF];
    HeadEndsWithRequest(target, auth);
  }

  lemma SecondLine(u: Bytes, v: Bytes)
    requires LF !in u
    ensures var ls := SplitLines((u + ([LF] + ([LF] + v))) + CRLF); |ls| > 1 && ls[1] == [LF] && Blank(ls[1])
  {
    var first, rest := u + [LF], [LF] + (v + CRLF);
    assert first[..|u|] == u;
    assert (u + ([LF] + ([LF] + v))) + CRLF == first + rest;
    FirstLine(first, rest);
    var empty: Bytes := [LF];
    assert empty[..0] == [];
    FirstLine(empty, v + CRLF);
  }

  /** For instance the name `a`, two line feeds, `b`, with port 8. */
  lemma TargetCutsRequestShort()
    ensures AfterHeaders(Request([97, 10, 10, 98, 58, 56], None), AnyBytes()) != Some([])
  {
    var u: Bytes, v: Bytes := [97], [98, 58, 56];
    assert u + ([LF] + ([LF] + v)) == [97, 10, 10, 98, 58, 56];
    TwoBreaksCutRequestShort(u, v, None);
  }
}

/** Standard base64 with padding (section 4 of RFC 4648). */
module Base64 {
  import opened Common

  type Bytes = seq<byte>
  type sextet = x: int | 0 <= x < 64

  const PAD: byte := 0x3D

  /** The alphabet A-Z, a-z, 0-9, +, / by value. */
  function Symbol(v: sextet): (c: byte)
    ensures c != PAD
  {
    if v < 26 then 0x41 + v
    else if v < 52 then 0x61 + v - 26
    else if v < 62 then 0x30 + v - 52
    else if v == 62 then 0x2B
    else 0x2F
  }

  /** The value of a symbol, as a decoder looks it up. */
  function Value(c: byte): Option<sextet> {
    if 0x41 <= c <= 0x5A then Some(c - 0x41)
    else if 0x61 <= c <= 0x7A then Some(c - 0x61 + 26)
    else if 0x30 <= c <= 0x39 then Some(c - 0x30 + 52)
    else if c == 0x2B then Some(62)
    else if c == 0x2F then Some(63)
    else None
  }

  /** Up to three bytes as one 24-bit number, missing bytes being zero. */
  function Combined(chunk: Bytes): (n: nat)
    requires 1 <= |chunk| <= 3
    ensures n < 0x100_0000
  {
    var b0: int := chunk[0];
    var b1: int := if |chunk| > 1 then chunk[1] else 0;
    var b2: int := if |chunk| > 2 then chunk[2] else 0;
    b0 * 0x1_0000 + b1 * 0x100 + b2
  }

  /** The four symbols of up to three bytes. */
  function EncodeChunk(chunk: Bytes): (q: Bytes)
    requires 1 <= |chunk| <= 3
    ensures |q| == 4
  {
    var combined := Combined(chunk);
    [Symbol(combined / 0x4_0000 % 64),
     Symbol(combined / 0x1000 % 64),
     if |chunk| > 1 then Symbol(combined / 64 % 64) else PAD,
     if |chunk| > 2 then Symbol(combined % 64) else PAD]
  }

  function Encoded(input: Bytes): Bytes {
    if input == [] then []
    else EncodeChunk(input[..Min(3, |input|)]) + Encoded(input[Min(3, |input|)..])
  }

  method PushChunk(buf: Bytes, chunk: Bytes) returns (out: Bytes)
    requires 1 <= |chunk| <= 3
    ensures out == buf + EncodeChunk(chunk)
  {
    var combined := Combined(chunk);
    out := buf + [Symbol(combined / 0x4_0000 % 64)];
    out := out + [Symbol(combined / 0x1000 % 64)];
    out := out + [if |chunk| > 1 then Symbol(combined / 64 % 64) else PAD];
    out := out + [if |chunk| > 2 then Symbol(combined % 64) else PAD];
  }

  method Base64Encode(input: Bytes) returns (out: Bytes)
    ensures out == Encoded(input)
  {
    out := [];
    var i := 0;
    while i < |input|
      invariant 0 <= i <= |input|
      invariant out + Encoded(input[i..]) == Encoded(input)
    {
      var chunk := input[i..Min(i + 3, |input|)];
      ghost var rest, before := input[i..], out;
      assert chunk == rest[..Min(3, |rest|)] && rest[Min(3, |rest|)..] == input[Min(i + 3, |input|)..];
      out := PushChunk(out, chunk);
      i := Min(i + 3, |input|);
      Assoc(before, EncodeChunk(chunk), Encoded(input[i..]));
    }
    assert input[|input|..] == [];
  }

  // ---------------------------------------------------------------- a decoder

  /** Decode one group of four; padding is allowed only at the end and the unused
      bits must be zero. */
  function DecodeGroup(q: Bytes): Option<Bytes>
    requires |q| == 4
  {
    var v0, v1 := Value(q[0]), Value(q[1]);
    if v0.None? || v1.None? then None
    else if q[2] == PAD && q[3] == PAD then
      if v1.value % 16 == 0 then Some([v0.value * 4 + v1.value / 16]) else None
    else
      var v2 := Value(q[2]);
      if v2.None? then None
      else if q[3] == PAD then
        if v2.value % 4 == 0 then
          Some([v0.value * 4 + v1.value / 16, v1.value % 16 * 16 + v2.value / 4])
        else None
      else
        var v3 := Value(q[3]);
        if v3.None? then None
        else Some([v0.value * 4 + v1.value / 16, v1.value % 16 * 16 + v2.value / 4, v2.value % 4 * 64 + v3.value])
  }

  /** A padded group must be the last one. */
  function Decode(s: Bytes): Option<Bytes> {
    if s == [] then Some([])
    else if |s| < 4 then None
    else
      match DecodeGroup(s[..4])
      case None => None
      case Some(head) =>
        if s[3] == PAD && |s| > 4 then None else
          match Decode(s[4..])
          case None => None
          case Some(tail) => Some(head + tail)
  }

  lemma SymbolValue(v: sextet)
    ensures Value(Symbol(v)) == Some(v)
  {
  }

  /** What the decoder makes of encoded sextets, with and without padding. */
  lemma DecodeSymbols(v0: sextet, v1: sextet, v2: sextet, v3: sextet)
    ensures DecodeGroup([Symbol(v0), Symbol(v1), Symbol(v2), Symbol(v3)])
         == Some([v0 * 4 + v1 / 16, v1 % 16 * 16 + v2 / 4, v2 % 4 * 64 + v3])
    ensures v2 % 4 == 0 ==>
      DecodeGroup([Symbol(v0), Symbol(v1), Symbol(v2), PAD]) == Some([v0 * 4 + v1 / 16, v1 % 16 * 16 + v2 / 4])
    ensures v1 % 16 == 0 ==> DecodeGroup([Symbol(v0), Symbol(v1), PAD, PAD]) == Some([v0 * 4 + v1 / 16])
  {
    SymbolValue(v0);
    SymbolValue(v1);
    SymbolValue(v2);
    SymbolValue(v3);
  }

  lemma ChunkSymbols(chunk: Bytes, b1: byte, b2: byte)
    requires 1 <= |chunk| <= 3
    requires b1 == (if |chunk| > 1 then chunk[1] else 0) && b2 == (if |chunk| > 2 then chunk[2] else 0)
    ensures var b0: int := chunk[0];
      var v0, v1, v2, v3 := b0 / 4, b0 % 4 * 16 + b1 / 16, b1 % 16 * 4 + b2 / 64, b2 % 64;
      EncodeChunk(chunk) == [Symbol(v0), Symbol(v1), if |chunk| > 1 then Symbol(v2) else PAD,
                             if |chunk| > 2 then Symbol(v3) else PAD]
  {
    Sextets(chunk[0], b1, b2);
  }

  lemma GroupRoundTrip(chunk: Bytes)
    requires 1 <= |chunk| <= 3
    ensures DecodeGroup(EncodeChunk(chunk)) == Some(chunk)
  {
    var b1: byte := if |chunk| > 1 then chunk[1] else 0;
    var b2: byte := if |chunk| > 2 then chunk[2] else 0;
    ChunkSymbols(chunk, b1, b2);
    DecodeBytes(chunk[0], b1, b2);
    ThreeBytes(chunk, chunk[0], b1, b2);
  }

  /** What the decoder makes of the symbols of three, two and one bytes. */
  lemma DecodeBytes(b0: byte, b1: byte, b2: byte)
    ensures var v0, v1, v2, v3 := b0 / 4, b0 % 4 * 16 + b1 / 16, b1 % 16 * 4 + b2 / 64, b2 % 64;
      && DecodeGroup([Symbol(v0), Symbol(v1), Symbol(v2), Symbol(v3)]) == Some([b0, b1, b2])
      && (b2 == 0 ==> DecodeGroup([Symbol(v0), Symbol(v1), Symbol(v2), PAD]) == Some([b0, b1]))
      && (b1 == 0 ==> DecodeGroup([Symbol(v0), Symbol(v1), PAD, PAD]) == Some([b0]))
  {
    DecodeSymbols(b0 / 4, b0 % 4 * 16 + b1 / 16, b1 % 16 * 4 + b2 / 64, b2 % 64);
    Rejoin(b0, b1, b2);
  }

  lemma ThreeBytes(chunk: Bytes, b0: byte, b1: byte, b2: byte)
    requires 1 <= |chunk| <= 3 && chunk[0] == b0
    requires (|chunk| > 1 ==> chunk[1] == b1) && (|chunk| > 2 ==> chunk[2] == b2)
    ensures chunk == if |chunk| == 1 then [b0] else if |chunk| == 2 then [b0, b1] else [b0, b1, b2]
  {
  }

  lemma Sextets(b0: int, b1: int, b2: int)
    requires 0 <= b0 < 256 && 0 <= b1 < 256 && 0 <= b2 < 256
    ensures var n := b0 * 0x1_0000 + b1 * 0x100 + b2;
      && n / 0x4_0000 % 64 == b0 / 4
      && n / 0x1000 % 64 == b0 % 4 * 16 + b1 / 16
      && n / 64 % 64 == b1 % 16 * 4 + b2 / 64
      && n % 64 == b2 % 64
  {
    var n := b0 * 0x1_0000 + b1 * 0x100 + b2;
    var s0, s1, s2, s3 := b0 / 4, b0 % 4 * 16 + b1 / 16, b1 % 16 * 4 + b2 / 64, b2 % 64;
    assert n == s0 * 0x4_0000 + s1 * 0x1000 + s2 * 64 + s3;
    Digits(s0, s1, s2, s3);
  }

  lemma Rejoin(b0: int, b1: int, b2: int)
    requires 0 <= b0 < 256 && 0 <= b1 < 256 && 0 <= b2 < 256
    ensures var s0, s1, s2, s3 := b0 / 4, b0 % 4 * 16 + b1 / 16, b1 % 16 * 4 + b2 / 64, b2 % 64;
      && s0 * 4 + s1 / 16 == b0 && s1 % 16 * 16 + s2 / 4 == b1 && s2 % 4 * 64 + s3 == b2
      && (b1 == 0 ==> s1 % 16 == 0) && (b2 == 0 ==> s2 % 4 == 0)
  {
  }

  lemma Digits(s0: int, s1: int, s2: int, s3: int)
    requires 0 <= s0 < 64 && 0 <= s1 < 64 && 0 <= s2 < 64 && 0 <= s3 < 64
    ensures var n := s0 * 0x4_0000 + s1 * 0x1000 + s2 * 64 + s3;
      n / 0x4_0000 % 64 == s0 && n / 0x1000 % 64 == s1 && n / 64 % 64 == s2 && n % 64 == s3
  {
    var n := s0 * 0x4_0000 + s1 * 0x1000 + s2 * 64 + s3;
    assert n / 64 == s0 * 0x1000 + s1 * 64 + s2;
    assert n / 0x1000 == s0 * 64 + s1;
    assert n / 0x4_0000 == s0;
  }

  /** A standard decoder undoes the encoder on every byte sequence. */
  lemma {:induction false} RoundTrip(input: Bytes)
    ensures Decode(Encoded(input)) == Some(input)
    decreases |input|
  {
    if input != [] {
      var k := Min(3, |input|);
      var chunk, rest := input[..k], input[k..];
      GroupRoundTrip(chunk);
      RoundTrip(rest);
      Parts(EncodeChunk(chunk), Encoded(rest));
      assert Encoded(input)[3] == EncodeChunk(chunk)[3];
      if EncodeChunk(chunk)[3] == PAD {
        assert rest == [];
      }
      assert chunk + rest == input;
    }
  }

  /** Which of the four symbols of a chunk are padding. */
  lemma ChunkPadding(chunk: Bytes)
    requires 1 <= |chunk| <= 3
    ensures forall i | 0 <= i < 4 :: EncodeChunk(chunk)[i] == PAD <==> i > |chunk|
  {
  }

  predicate PadAt(inputLength: nat, outputLength: nat, i: int) {
    (inputLength % 3 == 1 && i >= outputLength - 2) || (inputLength % 3 == 2 && i == outputLength - 1)
  }

  /** A full group in front shifts the padding. */
  lemma ShapeStep(q: Bytes, r: Bytes, n: nat)
    requires |q| == 4 && |r| >= 4 && forall i | 0 <= i < 4 :: q[i] != PAD
    requires forall i | 0 <= i < |r| :: r[i] == PAD <==> PadAt(n, |r|, i)
    ensures forall i | 0 <= i < |q + r| :: (q + r)[i] == PAD <==> PadAt(n + 3, |q + r|, i)
  {
    var e := q + r;
    forall i | 0 <= i < |e|
      ensures e[i] == PAD <==> PadAt(n + 3, |e|, i)
    {
      assert (n + 3) % 3 == n % 3;
      assert e[i] == if i < 4 then q[i] else r[i - 4];
    }
  }

  lemma OneChunk(chunk: Bytes)
    requires 1 <= |chunk| <= 3
    ensures Encoded(chunk) == EncodeChunk(chunk)
  {
    assert chunk[..|chunk|] == chunk && chunk[|chunk|..] == [];
    assert Encoded(chunk) == EncodeChunk(chunk) + [];
  }

  lemma ShapeLast(q: Bytes, n: nat)
    requires |q| == 4 && 1 <= n <= 3 && forall i | 0 <= i < 4 :: q[i] == PAD <==> i > n
    ensures forall i | 0 <= i < 4 :: q[i] == PAD <==> PadAt(n, 4, i)
  {
  }

  /** Length, and where padding can be: only in the last group, with a count fixed
      by the length of the input modulo 3. */
  lemma {:induction false} Shape(input: Bytes)
    ensures |Encoded(input)| == (|input| + 2) / 3 * 4
    ensures forall i | 0 <= i < |Encoded(input)| ::
      Encoded(input)[i] == PAD <==> PadAt(|input|, |Encoded(input)|, i)
    decreases |input|
  {
    if |input| > 3 {
      var chunk, rest := input[..3], input[3..];
      Shape(rest);
      ChunkPadding(chunk);
      ShapeStep(EncodeChunk(chunk), Encoded(rest), |rest|);
    } else if input != [] {
      OneChunk(input);
      ChunkPadding(input);
      ShapeLast(EncodeChunk(input), |input|);
    }
  }
}

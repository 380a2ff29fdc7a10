/** Longest-prefix matching on IPv4 addresses: the plain specification. */
module PrefixSpec {
  import opened Common
  import opened Targets

  /** Bits of an address, most significant first. */
  type Path = seq<bool>

  function Pow2(n: nat): (p: nat)
    ensures p > 0
  {
    if n == 0 then 1 else 2 * Pow2(n - 1)
  }

  function Bit(v: u32, i: nat): bool
    requires i < 32
  {
    (v / Pow2(31 - i)) % 2 == 1
  }

  function Bits(v: u32, n: nat): (p: Path)
    requires n <= 32
    ensures |p| == n
    ensures forall i | 0 <= i < n :: p[i] == Bit(v, i)
  {
    seq(n, i requires 0 <= i < n => Bit(v, i))
  }

  datatype IpRule = IpRule(network: u32, prefix: nat, action: ProxyConfig)

  ghost predicate Sane(rules: seq<IpRule>) {
    forall i | 0 <= i < |rules| :: rules[i].prefix <= 32
  }

  /** The rule's network and the address agree above the host part; host bits set
      in the rule are ignored. */
  predicate Covers(r: IpRule, addr: u32)
    requires r.prefix <= 32
  {
    r.network / Pow2(32 - r.prefix) == addr / Pow2(32 - r.prefix)
  }

  /** The plain scan: remember the first rule of the longest prefix so far. */
  function ScanRules(rules: seq<IpRule>, addr: u32): (r: Option<nat>)
    requires Sane(rules)
    ensures r.Some? ==> r.value < |rules|
  {
    if rules == [] then None else
      var n := |rules| - 1;
      var best := ScanRules(rules[..n], addr);
      if Covers(rules[n], addr) && (best.None? || rules[best.value].prefix < rules[n].prefix) then Some(n) else best
  }

  /** Rule i is the earliest among the covering rules with the longest prefix. */
  ghost predicate Wins(rules: seq<IpRule>, addr: u32, i: nat)
    requires Sane(rules)
  {
    && i < |rules| && Covers(rules[i], addr)
    && forall j: nat | j < |rules| && Covers(rules[j], addr) ::
         rules[j].prefix < rules[i].prefix || (rules[j].prefix == rules[i].prefix && i <= j)
  }

  lemma {:induction false} ScanMeaning(rules: seq<IpRule>, addr: u32)
    requires Sane(rules)
    ensures match ScanRules(rules, addr)
      case Some(i) => Wins(rules, addr, i)
      case None => forall j: nat | j < |rules| :: !Covers(rules[j], addr)
  {
    if rules != [] {
      var n := |rules| - 1;
      ScanMeaning(rules[..n], addr);
      assert forall j: nat | j < n :: rules[..n][j] == rules[j];
    }
  }

  // ---------------------------------------------------------------- prefixes as paths

  lemma DivUnique(v: int, m: int, q: int, r: int)
    requires v == m * q + r && 0 <= r < m
    ensures v / m == q
  {
    var d := v / m - q;
    assert m * d == r - v % m;
    assert d >= 1 ==> m * d >= m;
    assert d <= -1 ==> m * d <= -m;
  }

  lemma Halve(v: nat, d: nat)
    requires d > 0
    ensures v / d == 2 * (v / (2 * d)) + (v / d) % 2
  {
    var q, r := v / d, v % d;
    assert v == d * q + r && q == 2 * (q / 2) + q % 2;
    assert d * q == (2 * d) * (q / 2) + d * (q % 2);
    DivUnique(v, 2 * d, q / 2, d * (q % 2) + r);
  }

  lemma {:induction false} SameQuotientIffSameBits(a: u32, b: u32, n: nat)
    requires n <= 32
    ensures a / Pow2(32 - n) == b / Pow2(32 - n) <==> Bits(a, n) == Bits(b, n)
  {
    if n == 0 {
      assert Pow2(32) == 0x1_0000_0000 by { Pow2Of32(); }
    } else {
      SameQuotientIffSameBits(a, b, n - 1);
      Halve(a, Pow2(32 - n));
      Halve(b, Pow2(32 - n));
      assert Bits(a, n) == Bits(a, n - 1) + [Bit(a, n - 1)];
      assert Bits(b, n) == Bits(b, n - 1) + [Bit(b, n - 1)];
    }
  }

  lemma Pow2Of32()
    ensures Pow2(32) == 0x1_0000_0000
  {
    assert Pow2(8) == 256;
    assert Pow2(16) == 65536;
    assert Pow2(24) == 0x100_0000;
  }

  // ---------------------------------------------------------------- the abstract table

  type Actions = map<Path, ProxyConfig>

  /** The first action inserted at a path stays. */
  function InsertAt(m: Actions, p: Path, a: ProxyConfig): Actions {
    if p in m then m else m[p := a]
  }

  function KeyOf(r: IpRule): Path
    requires r.prefix <= 32
  {
    Bits(r.network, r.prefix)
  }

  function Build(rules: seq<IpRule>): Actions
    requires Sane(rules)
  {
    if rules == [] then map[] else
      var n := |rules| - 1;
      InsertAt(Build(rules[..n]), KeyOf(rules[n]), rules[n].action)
  }

  /** The action at the longest prefix of `bits`, at most n bits long. */
  function LongestMatch(m: Actions, bits: Path, n: nat): (r: Option<ProxyConfig>)
    requires n <= |bits|
  {
    if bits[..n] in m then Some(m[bits[..n]])
    else if n == 0 then None
    else LongestMatch(m, bits, n - 1)
  }

  ghost predicate Holds(rules: seq<IpRule>, p: Path, i: nat)
    requires Sane(rules) && p in Build(rules) && i < |rules|
  {
    && KeyOf(rules[i]) == p && Build(rules)[p] == rules[i].action
    && forall j: nat | j < i :: KeyOf(rules[j]) != p
  }

  /** A path holds the action of the first rule with that key. */
  lemma {:induction false} BuildMeaning(rules: seq<IpRule>, p: Path)
    requires Sane(rules)
    ensures p in Build(rules) <==> exists i: nat :: i < |rules| && KeyOf(rules[i]) == p
    ensures p in Build(rules) ==> exists i: nat :: i < |rules| && Holds(rules, p, i)
  {
    if rules != [] {
      var n := |rules| - 1;
      var front := rules[..n];
      BuildMeaning(front, p);
      assert forall j: nat | j < n :: front[j] == rules[j];
      if p in Build(front) {
        var i: nat :| i < |front| && Holds(front, p, i);
        assert KeyOf(rules[i]) == p && Holds(rules, p, i);
      } else if KeyOf(rules[n]) == p {
        assert forall j: nat | j < n :: KeyOf(front[j]) != p;
        assert Holds(rules, p, n);
      }
    }
  }

  lemma {:induction false} LongestMatchMeaning(m: Actions, bits: Path, n: nat)
    requires n <= |bits|
    ensures match LongestMatch(m, bits, n)
      case Some(a) => exists k: nat :: k <= n && bits[..k] in m && m[bits[..k]] == a
                                       && forall l: nat | k < l <= n :: bits[..l] !in m
      case None => forall l: nat | l <= n :: bits[..l] !in m
  {
    if bits[..n] !in m && n > 0 {
      LongestMatchMeaning(m, bits, n - 1);
    }
  }

  lemma RuleKeyIsPrefix(r: IpRule, addr: u32)
    requires r.prefix <= 32
    ensures Covers(r, addr) <==> KeyOf(r) == Bits(addr, 32)[..r.prefix]
  {
    SameQuotientIffSameBits(r.network, addr, r.prefix);
    assert Bits(addr, 32)[..r.prefix] == Bits(addr, r.prefix);
  }

  /** Longest-prefix lookup in the table built from any rule list is the plain
      scan of that list. */
  lemma LookupIsScan(rules: seq<IpRule>, addr: u32)
    requires Sane(rules)
    ensures LongestMatch(Build(rules), Bits(addr, 32), 32) ==
      match ScanRules(rules, addr) case Some(i) => Some(rules[i].action) case None => None
  {
    var m, bits := Build(rules), Bits(addr, 32);
    ScanMeaning(rules, addr);
    LongestMatchMeaning(m, bits, 32);
    match LongestMatch(m, bits, 32)
    case None =>
      forall j: nat | j < |rules|
        ensures !Covers(rules[j], addr)
      {
        RuleKeyIsPrefix(rules[j], addr);
        BuildMeaning(rules, bits[..rules[j].prefix]);
      }
    case Some(a) =>
      var k: nat :| k <= 32 && bits[..k] in m && m[bits[..k]] == a && forall l: nat | k < l <= 32 :: bits[..l] !in m;
      BuildMeaning(rules, bits[..k]);
      var i: nat :| i < |rules| && Holds(rules, bits[..k], i);
      HolderWins(rules, addr, k, i);
  }

  /** The rule that holds the longest stored prefix wins. */
  lemma HolderWins(rules: seq<IpRule>, addr: u32, k: nat, i: nat)
    requires Sane(rules) && k <= 32 && i < |rules|
    requires Bits(addr, 32)[..k] in Build(rules) && Holds(rules, Bits(addr, 32)[..k], i)
    requires forall l: nat | k < l <= 32 :: Bits(addr, 32)[..l] !in Build(rules)
    ensures Wins(rules, addr, i)
  {
    var bits := Bits(addr, 32);
    RuleKeyIsPrefix(rules[i], addr);
    forall j: nat | j < |rules| && Covers(rules[j], addr)
      ensures rules[j].prefix < rules[i].prefix || (rules[j].prefix == rules[i].prefix && i <= j)
    {
      RuleKeyIsPrefix(rules[j], addr);
      BuildMeaning(rules, bits[..rules[j].prefix]);
    }
  }
}

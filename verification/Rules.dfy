/** Routing rules: building the matchers and selecting a route. */
module Rules {
  import opened Common
  import opened Targets
  import opened PrefixSpec
  import opened PrefixTries

  /** A literal host, matched exactly and without regard to case, or a regular
      expression. What a pattern matches is the regex engine's business. */
  datatype Pattern = Literal(host: Name) | Regex(text: Name)

  type Engine = (Pattern, Name) -> bool

  /** A parsed `--rule` argument. */
  datatype RuleSpec =
    | IpSpec(addr: u32, action: ProxyConfig)
    | CidrSpec(network: u32, prefix: nat, action: ProxyConfig)
    | DomainSpec(host: Name, action: ProxyConfig)
    | DomainRegexSpec(text: Name, action: ProxyConfig)
  {
    predicate IsIp() {
      IpSpec? || CidrSpec?
    }
  }

  predicate Accepted(specs: seq<RuleSpec>) {
    forall s | s in specs :: s.CidrSpec? ==> s.prefix <= 32
  }

  /** The ip and cidr rules of the command line, in order. */
  function IpRules(specs: seq<RuleSpec>): (rules: seq<IpRule>)
    requires Accepted(specs)
    ensures Sane(rules)
  {
    if specs == [] then [] else
      var front, s := IpRules(specs[..|specs| - 1]), specs[|specs| - 1];
      match s
      case IpSpec(addr, action) => front + [IpRule(addr, 32, action)]
      case CidrSpec(network, prefix, action) => assert s in specs; front + [IpRule(network, prefix, action)]
      case _ => front
  }

  /** The domain rules of the command line, in order. */
  function DomainRules(specs: seq<RuleSpec>): seq<(Pattern, ProxyConfig)> {
    if specs == [] then [] else
      var front, s := DomainRules(specs[..|specs| - 1]), specs[|specs| - 1];
      match s
      case DomainSpec(host, action) => front + [(Literal(host), action)]
      case DomainRegexSpec(text, action) => front + [(Regex(text), action)]
      case _ => front
  }

  /** A rule does what its argument says: an address stands for itself, a network
      for all addresses that share its leading bits. */
  ghost predicate Means(spec: RuleSpec, rule: IpRule) {
    && spec.IsIp() && rule.prefix <= 32 && rule.action == spec.action
    && (spec.IpSpec? ==> rule.prefix == 32 && forall a: u32 :: Covers(rule, a) <==> a == spec.addr)
    && (spec.CidrSpec? ==>
          rule.prefix == spec.prefix && forall a: u32 :: Covers(rule, a) <==> SameBits(spec.network, a, spec.prefix))
  }

  /** The first bits of two addresses agree. */
  ghost predicate SameBits(a: u32, b: u32, prefix: nat) {
    prefix <= 32 && Bits(a, prefix) == Bits(b, prefix)
  }

  lemma RuleMeans(spec: RuleSpec, rule: IpRule)
    requires (spec.IpSpec? && rule == IpRule(spec.addr, 32, spec.action))
          || (spec.CidrSpec? && spec.prefix <= 32 && rule == IpRule(spec.network, spec.prefix, spec.action))
    ensures Means(spec, rule)
  {
    forall a: u32
      ensures Covers(rule, a) <==> SameBits(rule.network, a, rule.prefix)
    {
      SameQuotientIffSameBits(rule.network, a, rule.prefix);
    }
    assert Pow2(0) == 1;
  }

  /** The ip rules are the ip arguments, all of them, in order. */
  lemma {:induction false} IpRulesInOrder(specs: seq<RuleSpec>) returns (at: seq<nat>)
    requires Accepted(specs)
    ensures |at| == |IpRules(specs)| && forall k, l | 0 <= k < l < |at| :: at[k] < at[l]
    ensures forall k | 0 <= k < |at| :: at[k] < |specs| && Means(specs[at[k]], IpRules(specs)[k])
    ensures forall i | 0 <= i < |specs| && specs[i].IsIp() :: i in at
  {
    if specs == [] {
      at := [];
    } else {
      var n := |specs| - 1;
      assert specs[n] in specs && forall s | s in specs[..n] :: s in specs;
      at := IpRulesInOrder(specs[..n]);
      if specs[n].IsIp() {
        var rules := IpRules(specs);
        RuleMeans(specs[n], rules[|rules| - 1]);
        at := at + [n];
      }
    }
  }

  /** A domain rule is the pattern and action of its argument. */
  predicate DomainMeans(spec: RuleSpec, rule: (Pattern, ProxyConfig)) {
    match spec
    case DomainSpec(host, action) => rule == (Literal(host), action)
    case DomainRegexSpec(text, action) => rule == (Regex(text), action)
    case _ => false
  }

  /** The domain rules are the domain arguments, all of them, in order. */
  lemma {:induction false} DomainRulesInOrder(specs: seq<RuleSpec>) returns (at: seq<nat>)
    ensures |at| == |DomainRules(specs)| && forall k, l | 0 <= k < l < |at| :: at[k] < at[l]
    ensures forall k | 0 <= k < |at| :: at[k] < |specs| && DomainMeans(specs[at[k]], DomainRules(specs)[k])
    ensures forall i | 0 <= i < |specs| && !specs[i].IsIp() :: i in at
  {
    if specs == [] {
      at := [];
    } else {
      var n := |specs| - 1;
      at := DomainRulesInOrder(specs[..n]);
      if !specs[n].IsIp() {
        var rules := DomainRules(specs);
        assert rules[..|rules| - 1] == DomainRules(specs[..n]) && DomainMeans(specs[n], rules[|rules| - 1]);
        at := at + [n];
      }
    }
  }

  /** The lowest index in a regex set that matches the host. */
  function FirstMatch(patterns: seq<Pattern>, engine: Engine, host: Name): (r: Option<nat>)
    ensures match r
      case Some(k) => k < |patterns| && engine(patterns[k], host) && forall j | 0 <= j < k :: !engine(patterns[j], host)
      case None => forall j | 0 <= j < |patterns| :: !engine(patterns[j], host)
  {
    if patterns == [] then None else
      var n := |patterns| - 1;
      var front := FirstMatch(patterns[..n], engine, host);
      if front.Some? then front else if engine(patterns[n], host) then Some(n) else None
  }

  /** The first domain rule, in command-line order, that matches. */
  function DomainRoute(rules: seq<(Pattern, ProxyConfig)>, engine: Engine, host: Name): Option<ProxyConfig> {
    if rules == [] then None
    else if engine(rules[0].0, host) then Some(rules[0].1)
    else DomainRoute(rules[1..], engine, host)
  }

  function IpRoute(rules: seq<IpRule>, addr: u32): Option<ProxyConfig>
    requires Sane(rules)
  {
    match ScanRules(rules, addr)
    case Some(i) => Some(rules[i].action)
    case None => None
  }

  function RouteFor(specs: seq<RuleSpec>, fallback: ProxyConfig, engine: Engine, target: ProxyTarget): ProxyConfig
    requires Accepted(specs)
  {
    var matched := match target
      case Domain(host, _) => DomainRoute(DomainRules(specs), engine, host)
      case Ip(V4(bits), _) => IpRoute(IpRules(specs), bits)
      case Ip(V6(_), _) => None;
    if matched.Some? then matched.value else fallback
  }

  /** Searching the parallel arrays for the lowest index is the first rule. */
  lemma {:induction false} FirstMatchIsDomainRoute(rules: seq<(Pattern, ProxyConfig)>, patterns: seq<Pattern>,
                                                   engine: Engine, host: Name)
    requires |patterns| == |rules| && forall j | 0 <= j < |rules| :: patterns[j] == rules[j].0
    ensures DomainRoute(rules, engine, host) ==
      match FirstMatch(patterns, engine, host) case Some(k) => Some(rules[k].1) case None => None
  {
    if rules != [] {
      var rest := patterns[1..];
      FirstMatchIsDomainRoute(rules[1..], rest, engine, host);
      var r, r1 := FirstMatch(patterns, engine, host), FirstMatch(rest, engine, host);
      if !engine(patterns[0], host) {
        if r.Some? {
          assert rest[r.value - 1] == patterns[r.value];
        }
        if r1.Some? {
          assert rest[r1.value] == patterns[r1.value + 1];
        }
      }
    }
  }

  class RuleMatcher {
    const domainPatterns: seq<Pattern>
    const domainActions: seq<ProxyConfig>
    const cidr: PrefixTrie
    ghost const specs: seq<RuleSpec>

    ghost predicate Valid()
      reads cidr, cidr.at.Values
    {
      && Accepted(specs)
      && cidr.Valid() && cidr.Contents() == Build(IpRules(specs))
      && Split(DomainRules(specs), domainPatterns, domainActions)
    }

    constructor (patterns: seq<Pattern>, actions: seq<ProxyConfig>, trie: PrefixTrie, ghost accepted: seq<RuleSpec>)
      ensures domainPatterns == patterns && domainActions == actions && cidr == trie && specs == accepted
    {
      domainPatterns, domainActions, cidr, specs := patterns, actions, trie, accepted;
    }

    method MatchDomain(engine: Engine, host: Name) returns (r: Option<ProxyConfig>)
      requires Valid()
      ensures r == DomainRoute(DomainRules(specs), engine, host)
    {
      FirstMatchIsDomainRoute(DomainRules(specs), domainPatterns, engine, host);
      var index := FirstMatch(domainPatterns, engine, host);
      r := if index.None? then None else Some(domainActions[index.value]);
    }

    method MatchIp(addr: u32) returns (r: Option<ProxyConfig>)
      requires Valid()
      ensures r == IpRoute(IpRules(specs), addr)
    {
      LookupIsScan(IpRules(specs), addr);
      r := cidr.Get(addr);
    }
  }

  ghost predicate Split(rules: seq<(Pattern, ProxyConfig)>, patterns: seq<Pattern>, actions: seq<ProxyConfig>) {
    && |rules| == |patterns| == |actions|
    && (forall j | 0 <= j < |rules| :: rules[j] == (patterns[j], actions[j]))
  }

  /** The patterns of the domain rules, in order. */
  function Patterns(specs: seq<RuleSpec>): seq<Pattern> {
    seq(|DomainRules(specs)|, i requires 0 <= i < |DomainRules(specs)| => DomainRules(specs)[i].0)
  }

  /** Build the matchers from the command line. A prefix above 32 is an error, and
      so are patterns that do not compile together. */
  method FromSpecs(specs: seq<RuleSpec>, compiles: seq<Pattern> -> bool) returns (r: Option<RuleMatcher>)
    ensures r.Some? <==> Accepted(specs) && (Patterns(specs) == [] || compiles(Patterns(specs)))
    ensures r.Some? ==> r.value.Valid() && r.value.specs == specs
  {
    var ok, domainPatterns, domainActions, cidr := Gather(specs);
    if !ok {
      return None;
    }
    assert domainPatterns == Patterns(specs);
    if domainPatterns != [] && !compiles(domainPatterns) {
      return None;
    }
    var matcher := new RuleMatcher(domainPatterns, domainActions, cidr, specs);
    r := Some(matcher);
  }

  /** The loop over the arguments. */
  method Gather(specs: seq<RuleSpec>)
    returns (ok: bool, domainPatterns: seq<Pattern>, domainActions: seq<ProxyConfig>, cidr: PrefixTrie)
    ensures ok <==> Accepted(specs)
    ensures ok ==> cidr.Valid() && cidr.Contents() == Build(IpRules(specs))
    ensures ok ==> Split(DomainRules(specs), domainPatterns, domainActions)
  {
    domainPatterns, domainActions := [], [];
    cidr := new PrefixTrie();
    for i := 0 to |specs|
      invariant fresh(cidr) && fresh(cidr.at.Values) && cidr.Valid()
      invariant Accepted(specs[..i])
      invariant cidr.Contents() == Build(IpRules(specs[..i]))
      invariant Split(DomainRules(specs[..i]), domainPatterns, domainActions)
    {
      match specs[i] {
        case IpSpec(addr, action) =>
          AddIpRule(cidr, specs, i, IpRule(addr, 32, action));
        case CidrSpec(network, prefix, action) =>
          if prefix > 32 {
            ok := false;
            return;
          }
          AddIpRule(cidr, specs, i, IpRule(network, prefix, action));
        case DomainSpec(host, action) =>
          AppendDomainRule(specs, i, Literal(host), action);
          domainPatterns, domainActions := domainPatterns + [Literal(host)], domainActions + [action];
        case DomainRegexSpec(text, action) =>
          AppendDomainRule(specs, i, Regex(text), action);
          domainPatterns, domainActions := domainPatterns + [Regex(text)], domainActions + [action];
      }
    }
    assert specs[..|specs|] == specs;
    ok := true;
  }

  method AddIpRule(cidr: PrefixTrie, ghost specs: seq<RuleSpec>, ghost i: nat, rule: IpRule)
    requires i < |specs| && Accepted(specs[..i]) && rule.prefix <= 32
    requires (specs[i] == IpSpec(rule.network, rule.action) && rule.prefix == 32)
          || specs[i] == CidrSpec(rule.network, rule.prefix, rule.action)
    requires cidr.Valid() && cidr.Contents() == Build(IpRules(specs[..i]))
    modifies cidr, cidr.at.Values
    ensures cidr.Valid() && fresh(cidr.at.Values - old(cidr.at.Values))
    ensures Accepted(specs[..i + 1]) && cidr.Contents() == Build(IpRules(specs[..i + 1]))
    ensures DomainRules(specs[..i + 1]) == DomainRules(specs[..i])
  {
    AppendIpRule(specs, i, rule);
    cidr.Insert(rule.network, rule.prefix, rule.action);
  }

  lemma AppendIpRule(specs: seq<RuleSpec>, i: nat, rule: IpRule)
    requires i < |specs| && Accepted(specs[..i]) && rule.prefix <= 32
    requires (specs[i] == IpSpec(rule.network, rule.action) && rule.prefix == 32)
          || specs[i] == CidrSpec(rule.network, rule.prefix, rule.action)
    ensures Accepted(specs[..i + 1]) && DomainRules(specs[..i + 1]) == DomainRules(specs[..i])
    ensures Build(IpRules(specs[..i + 1])) == InsertAt(Build(IpRules(specs[..i])), KeyOf(rule), rule.action)
  {
    assert specs[..i + 1] == specs[..i] + [specs[i]];
    var before, after := IpRules(specs[..i]), IpRules(specs[..i + 1]);
    assert specs[..i + 1][..i] == specs[..i];
    assert after == before + [rule];
    assert after[..|before|] == before;
  }

  lemma AppendDomainRule(specs: seq<RuleSpec>, i: nat, pattern: Pattern, action: ProxyConfig)
    requires i < |specs| && Accepted(specs[..i])
    requires (exists host :: specs[i] == DomainSpec(host, action) && pattern == Literal(host))
          || (exists text :: specs[i] == DomainRegexSpec(text, action) && pattern == Regex(text))
    ensures Accepted(specs[..i + 1]) && IpRules(specs[..i + 1]) == IpRules(specs[..i])
    ensures DomainRules(specs[..i + 1]) == DomainRules(specs[..i]) + [(pattern, action)]
  {
    assert specs[..i + 1] == specs[..i] + [specs[i]];
    assert specs[..i + 1][..i] == specs[..i];
  }

  class Config {
    const defaultProxy: ProxyConfig
    const rules: RuleMatcher

    constructor (fallback: ProxyConfig, matcher: RuleMatcher)
      ensures defaultProxy == fallback && rules == matcher
    {
      defaultProxy, rules := fallback, matcher;
    }

    method ProxyFor(engine: Engine, target: ProxyTarget) returns (proxy: ProxyConfig)
      requires rules.Valid()
      ensures proxy == RouteFor(rules.specs, defaultProxy, engine, target)
    {
      var matched: Option<ProxyConfig> := None;
      match target {
        case Domain(host, _) =>
          matched := rules.MatchDomain(engine, host);
        case Ip(V4(bits), _) =>
          matched := rules.MatchIp(bits);
        case Ip(V6(_), _) =>
      }
      proxy := if matched.Some? then matched.value else defaultProxy;
    }
  }
}

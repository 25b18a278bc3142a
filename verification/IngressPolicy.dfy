/** The local-TUN ingress policy: lowering the panel's ordered routing rules to
    ingress rules, and coalescing adjacent domain rules
    (internal/localtun/policy.go). */
module IngressPolicy {
  import opened DomainNames
  import opened Options
  import opened Prefixes
  import opened Sequences

  const MAX_DNS_GROUPS := 6
  const MAX_STATIC_PREFIXES := 4096

  datatype Action = Direct | Tunnel | Block

  datatype Network = AnyNetwork | Tcp | Udp | TcpUdp | UdpTcp | Unsupported(text: string)

  datatype RawPortRange = PortRange(lo: nat, hi: nat)

  type PortRange = r: RawPortRange | 1 <= r.lo <= r.hi <= 65535 witness PortRange(1, 1)

  /** One destination entry of a rule after lookup: CIDRs (a literal or a geoip
      list), a geosite list, one domain name, or something that does not parse. */
  datatype Token = Addrs(prefixes: seq<Prefix>) | Site(names: seq<string>) | Name(name: string) | Malformed

  /** A rule of the snapshot. `applies` is the outcome of the user and inbound
      filters; text that fails to parse is None. */
  datatype LoadedRule = LoadedRule(
    applies: bool, tag: string, network: Network, ports: Option<seq<PortRange>>,
    sources: seq<Option<Prefix>>, tokens: seq<Token>)

  datatype IngressRule = IngressRule(
    index: nat, action: Action, ipv4: seq<Prefix>, ipv6: seq<Prefix>, domains: seq<string>,
    source4: seq<Prefix>, source6: seq<Prefix>, network: Network, ports: seq<PortRange>)

  datatype Policy = Policy(rules: seq<IngressRule>, dynamicGroups: nat, tunnelTag: string)

  datatype PolicyError =
    | NoOutbound | ManyTunnels(first: string, second: string) | UnexpectedTag
    | BadNetwork | BadPorts | BadSource | BadDestination
    | MixedDestination | TooManyPrefixes | TooManyGroups

  datatype Result<T> = Ok(value: T) | Err(error: PolicyError)

  // ---- what a rule means ---------------------------------------------------

  datatype Proto = TcpProto | UdpProto

  /** A connection asking for a verdict; `name` is the domain it was looked up
      under, when it was. */
  datatype Query = Query(proto: Proto, port: nat, source: Addr, dest: Addr, name: Option<string>)

  predicate NetworkAllows(n: Network, p: Proto) {
    match n
    case Tcp => p == TcpProto
    case Udp => p == UdpProto
    case _ => true
  }

  predicate PortsAllow(ports: seq<PortRange>, port: nat) {
    ports == [] || exists i :: 0 <= i < |ports| && ports[i].lo <= port <= ports[i].hi
  }

  /** ChinaDNS list entries match the domain itself and everything below it. */
  predicate NameListed(domains: seq<string>, name: Option<string>) {
    name.Some? && exists i :: 0 <= i < |domains| && IsUnder(name.value, domains[i])
  }

  predicate HasDestination(r: IngressRule) {
    r.ipv4 != [] || r.ipv6 != [] || r.domains != []
  }

  predicate SourceAllows(r: IngressRule, a: Addr) {
    (r.source4 == [] && r.source6 == []) || Covered(r.source4, a) || Covered(r.source6, a)
  }

  predicate RuleMatches(r: IngressRule, q: Query) {
    && NetworkAllows(r.network, q.proto)
    && PortsAllow(r.ports, q.port)
    && SourceAllows(r, q.source)
    && (!HasDestination(r) || Covered(r.ipv4, q.dest) || Covered(r.ipv6, q.dest) || NameListed(r.domains, q.name))
  }

  function FirstMatch(rules: seq<IngressRule>, q: Query): Option<Action> {
    if rules == [] then None
    else if RuleMatches(rules[0], q) then Some(rules[0].action)
    else FirstMatch(rules[1..], q)
  }

  /** The panel's own reading of a loaded rule, before any lowering. */
  predicate TokenMatches(t: Token, q: Query) {
    match t
    case Addrs(ps) => Covered(ps, q.dest)
    case Site(names) => NameListed(names, q.name)
    case Name(n) => NameListed([n], q.name)
    case Malformed => false
  }

  predicate AnyTokenMatches(tokens: seq<Token>, q: Query) {
    exists i :: 0 <= i < |tokens| && TokenMatches(tokens[i], q)
  }

  predicate AnySourceContains(sources: seq<Option<Prefix>>, a: Addr) {
    exists i :: 0 <= i < |sources| && sources[i].Some? && Contains(sources[i].value, a)
  }

  predicate LoadedMatches(l: LoadedRule, q: Query) {
    && l.applies
    && NetworkAllows(l.network, q.proto)
    && l.ports.Some? && PortsAllow(l.ports.value, q.port)
    && (l.sources == [] || AnySourceContains(l.sources, q.source))
    && (l.tokens == [] || AnyTokenMatches(l.tokens, q))
  }

  function TagAction(tag: string): Action {
    if tag == "direct" then Direct else if tag == "block" then Block else Tunnel
  }

  function FirstLoaded(loaded: seq<LoadedRule>, q: Query): Option<Action> {
    if loaded == [] then None
    else if LoadedMatches(loaded[0], q) then Some(TagAction(loaded[0].tag))
    else FirstLoaded(loaded[1..], q)
  }

  // ---- the tunnel outbound --------------------------------------------------

  predicate IsTunnelTag(tag: string) {
    tag != "" && tag != "direct" && tag != "block"
  }

  predicate Tunnels(l: LoadedRule) {
    l.applies && IsTunnelTag(l.tag)
  }

  /** Applicable rules all name an outbound, and at most one tunnel outbound. */
  predicate TagsAgree(rules: seq<LoadedRule>) {
    && (forall i :: 0 <= i < |rules| && rules[i].applies ==> rules[i].tag != "")
    && (forall i, j :: 0 <= i < j < |rules| && Tunnels(rules[i]) && Tunnels(rules[j]) ==> rules[i].tag == rules[j].tag)
  }

  predicate SelectsTag(rules: seq<LoadedRule>, selected: string) {
    && (forall i :: 0 <= i < |rules| && Tunnels(rules[i]) ==> rules[i].tag == selected)
    && (selected == "" || exists i :: 0 <= i < |rules| && Tunnels(rules[i]) && rules[i].tag == selected)
  }

  method LocalTunnelOutbound(rules: seq<LoadedRule>) returns (r: Result<string>)
    ensures r.Ok? <==> TagsAgree(rules)
    ensures r.Ok? ==> SelectsTag(rules, r.value)
  {
    var selected := "";
    for i := 0 to |rules|
      invariant TagsAgree(rules[..i])
      invariant SelectsTag(rules[..i], selected)
    {
      TakeNext(rules, i);
      var loaded := rules[i];
      if !loaded.applies {
        continue;
      }
      var tag := loaded.tag;
      if tag == "" {
        return Err(NoOutbound);
      }
      if tag == "direct" || tag == "block" {
        continue;
      }
      if selected == "" {
        selected := tag;
        assert rules[..i + 1][i].tag == selected;
        continue;
      }
      if selected != tag {
        var k :| 0 <= k < i && Tunnels(rules[..i][k]) && rules[..i][k].tag == selected;
        assert rules[k].tag != rules[i].tag;
        return Err(ManyTunnels(selected, tag));
      }
    }
    TakeAll(rules);
    r := Ok(selected);
  }

  // ---- lowering one rule -----------------------------------------------------

  function OfFamily(ps: seq<Prefix>, f: Family): (r: seq<Prefix>)
    ensures forall p :: p in r <==> p in ps && p.addr.family == f
  {
    if ps == [] then [] else
      var init := OfFamily(ps[..|ps| - 1], f);
      assert ps == ps[..|ps| - 1] + [ps[|ps| - 1]];
      if ps[|ps| - 1].addr.family == f then init + [ps[|ps| - 1]] else init
  }

  lemma OfFamilySnoc(ps: seq<Prefix>, p: Prefix)
    ensures forall f :: OfFamily(ps + [p], f) == if p.addr.family == f then OfFamily(ps, f) + [p] else OfFamily(ps, f)
  {}

  /** dst followed by the entries of src not seen before, in order. */
  function AppendNovel(dst: seq<string>, src: seq<string>): (r: seq<string>)
    ensures dst <= r
    ensures forall x :: x in r <==> x in dst || x in src
  {
    if src == [] then dst else
      var init := AppendNovel(dst, src[..|src| - 1]);
      assert src == src[..|src| - 1] + [src[|src| - 1]];
      if src[|src| - 1] in init then init else init + [src[|src| - 1]]
  }

  method AppendUniqueDomains(dst: seq<string>, src: seq<string>) returns (out: seq<string>)
    ensures out == AppendNovel(dst, src)
  {
    var seen: set<string> := {};
    for i := 0 to |dst|
      invariant forall x :: x in seen <==> x in dst[..i]
    {
      seen := seen + {dst[i]};
    }
    TakeAll(dst);
    out := dst;
    for i := 0 to |src|
      invariant out == AppendNovel(dst, src[..i])
      invariant forall x :: x in seen <==> x in out
    {
      TakeNext(src, i);
      if src[i] !in seen {
        seen := seen + {src[i]};
        out := out + [src[i]];
      }
    }
    TakeAll(src);
  }

  datatype Destinations = Destinations(ipv4: seq<Prefix>, ipv6: seq<Prefix>, domains: seq<string>)

  const NO_DESTINATIONS := Destinations([], [], [])

  /** A geoip list must not be empty; a geosite list must add something new. */
  function AddToken(d: Destinations, t: Token): Option<Destinations> {
    match t
    case Addrs(ps) =>
      if ps == [] then None
      else Some(d.(ipv4 := d.ipv4 + OfFamily(ps, V4), ipv6 := d.ipv6 + OfFamily(ps, V6)))
    case Site(names) =>
      var domains := AppendNovel(d.domains, names);
      if |domains| == |d.domains| then None else Some(d.(domains := domains))
    case Name(n) => Some(d.(domains := AppendNovel(d.domains, [n])))
    case Malformed => None
  }

  function AddTokens(tokens: seq<Token>): Option<Destinations> {
    if tokens == [] then Some(NO_DESTINATIONS) else
      var init := AddTokens(tokens[..|tokens| - 1]);
      if init.None? then None else AddToken(init.value, tokens[|tokens| - 1])
  }

  function SourcePrefixes(sources: seq<Option<Prefix>>): seq<Prefix> {
    if sources == [] then [] else
      var last := sources[|sources| - 1];
      SourcePrefixes(sources[..|sources| - 1]) + if last.Some? then [last.value] else []
  }

  predicate AllParse(sources: seq<Option<Prefix>>) {
    forall i :: 0 <= i < |sources| ==> sources[i].Some?
  }

  /** Which applicable rules can be lowered at all. */
  predicate Lowerable(l: LoadedRule) {
    && !l.network.Unsupported?
    && l.ports.Some?
    && AllParse(l.sources)
    && var d := AddTokens(l.tokens);
    && d.Some?
    && (d.value.domains == [] || (d.value.ipv4 == [] && d.value.ipv6 == []))
    && |NormalForm(d.value.ipv4)| + |NormalForm(d.value.ipv6)| <= MAX_STATIC_PREFIXES
  }

  function Lower(l: LoadedRule, index: nat): IngressRule
    requires Lowerable(l)
  {
    var d := AddTokens(l.tokens).value;
    var sources := SourcePrefixes(l.sources);
    IngressRule(
      index, TagAction(l.tag), NormalForm(d.ipv4), NormalForm(d.ipv6), d.domains,
      NormalForm(OfFamily(sources, V4)), NormalForm(OfFamily(sources, V6)), l.network, l.ports.value)
  }

  lemma SourcesNext(sources: seq<Option<Prefix>>, i: nat)
    requires i < |sources| && AllParse(sources[..i]) && sources[i].Some?
    ensures AllParse(sources[..i + 1])
    ensures forall f :: OfFamily(SourcePrefixes(sources[..i + 1]), f)
                     == OfFamily(SourcePrefixes(sources[..i]), f) + (if sources[i].value.addr.family == f
                       then [sources[i].value] else [])
  {
    TakeNext(sources, i);
    OfFamilySnoc(SourcePrefixes(sources[..i]), sources[i].value);
  }

  method LowerSources(sources: seq<Option<Prefix>>) returns (r: Option<(seq<Prefix>, seq<Prefix>)>)
    ensures r.Some? <==> AllParse(sources)
    ensures r.Some? ==>
            r.value.0 == OfFamily(SourcePrefixes(sources), V4) && r.value.1 == OfFamily(SourcePrefixes(sources), V6)
  {
    var source4, source6 := [], [];
    for i := 0 to |sources|
      invariant AllParse(sources[..i])
      invariant source4 == OfFamily(SourcePrefixes(sources[..i]), V4)
      invariant source6 == OfFamily(SourcePrefixes(sources[..i]), V6)
    {
      if sources[i].None? {
        return None;
      }
      var p := sources[i].value;
      SourcesNext(sources, i);
      if p.addr.family == V4 {
        source4 := source4 + [p];
      } else {
        source6 := source6 + [p];
      }
    }
    TakeAll(sources);
    r := Some((source4, source6));
  }

  method LowerTokens(tokens: seq<Token>) returns (r: Option<Destinations>)
    ensures r == AddTokens(tokens)
  {
    var d := NO_DESTINATIONS;
    for i := 0 to |tokens|
      invariant AddTokens(tokens[..i]) == Some(d)
    {
      TakeNext(tokens, i);
      var next := AddToken(d, tokens[i]);
      if next.None? {
        FailureSticks(tokens, i + 1);
        return None;
      }
      d := next.value;
    }
    TakeAll(tokens);
    r := Some(d);
  }

  lemma {:induction false} FailureSticks(tokens: seq<Token>, i: nat)
    requires i <= |tokens| && AddTokens(tokens[..i]).None?
    ensures AddTokens(tokens).None?
    decreases |tokens| - i
  {
    if i == |tokens| {
      assert tokens[..i] == tokens;
    } else {
      TakeNext(tokens, i);
      FailureSticks(tokens, i + 1);
    }
  }

  method LowerRule(l: LoadedRule, tunnelTag: string, index: nat) returns (r: Result<IngressRule>)
    requires l.tag != "" && (IsTunnelTag(l.tag) ==> l.tag == tunnelTag)
    ensures r.Ok? <==> Lowerable(l)
    ensures r.Ok? ==> r.value == Lower(l, index)
  {
    var action;
    if l.tag == "direct" {
      action := Direct;
    } else if l.tag == "block" {
      action := Block;
    } else {
      action := Tunnel;
    }
    if l.network.Unsupported? {
      return Err(BadNetwork);
    }
    if l.ports.None? {
      return Err(BadPorts);
    }
    var sources := LowerSources(l.sources);
    if sources.None? {
      return Err(BadSource);
    }
    var dests := LowerTokens(l.tokens);
    if dests.None? {
      return Err(BadDestination);
    }
    var ipv4 := NormalizeIngressPrefixes(dests.value.ipv4);
    var ipv6 := NormalizeIngressPrefixes(dests.value.ipv6);
    var source4 := NormalizeIngressPrefixes(sources.value.0);
    var source6 := NormalizeIngressPrefixes(sources.value.1);
    NormalFormEmpty(dests.value.ipv4);
    NormalFormEmpty(dests.value.ipv6);
    if |dests.value.domains| > 0 && |ipv4| + |ipv6| > 0 {
      return Err(MixedDestination);
    }
    if |ipv4| + |ipv6| > MAX_STATIC_PREFIXES {
      return Err(TooManyPrefixes);
    }
    r := Ok(IngressRule(index, action, ipv4, ipv6, dests.value.domains, source4, source6, l.network, l.ports.value));
  }

  lemma NormalFormEmpty(values: seq<Prefix>)
    ensures NormalForm(values) == [] <==> values == []
  {}

  // ---- lowering preserves what a rule matches ---------------------------------

  lemma OfFamilyCovers(ps: seq<Prefix>, a: Addr)
    ensures Covered(ps, a) <==> Covered(OfFamily(ps, V4), a) || Covered(OfFamily(ps, V6), a)
  {}

  lemma CoveredConcat(s: seq<Prefix>, t: seq<Prefix>, a: Addr)
    ensures Covered(s + t, a) <==> Covered(s, a) || Covered(t, a)
  {
    if Covered(s, a) {
      var i :| 0 <= i < |s| && Contains(s[i], a);
      assert Contains((s + t)[i], a);
    }
    if Covered(t, a) {
      var i :| 0 <= i < |t| && Contains(t[i], a);
      assert Contains((s + t)[|s| + i], a);
    }
  }

  lemma NameListedUnion(all: seq<string>, dst: seq<string>, src: seq<string>, name: Option<string>)
    requires forall x :: x in all <==> x in dst || x in src
    ensures NameListed(all, name) <==> NameListed(dst, name) || NameListed(src, name)
  {
    if NameListed(all, name) {
      var i :| 0 <= i < |all| && IsUnder(name.value, all[i]);
      assert all[i] in dst || all[i] in src;
    }
    if NameListed(dst, name) {
      var i :| 0 <= i < |dst| && IsUnder(name.value, dst[i]);
      assert dst[i] in all;
    }
    if NameListed(src, name) {
      var i :| 0 <= i < |src| && IsUnder(name.value, src[i]);
      assert src[i] in all;
    }
  }

  predicate DestinationsMatch(d: Destinations, q: Query) {
    Covered(d.ipv4, q.dest) || Covered(d.ipv6, q.dest) || NameListed(d.domains, q.name)
  }

  lemma AddTokenMeaning(d: Destinations, t: Token, q: Query)
    requires AddToken(d, t).Some?
    ensures DestinationsMatch(AddToken(d, t).value, q) <==> DestinationsMatch(d, q) || TokenMatches(t, q)
    ensures AddToken(d, t).value != NO_DESTINATIONS
  {
    match t
    case Addrs(ps) =>
      OfFamilyCovers(ps, q.dest);
      CoveredConcat(d.ipv4, OfFamily(ps, V4), q.dest);
      CoveredConcat(d.ipv6, OfFamily(ps, V6), q.dest);
      assert ps[0] in OfFamily(ps, ps[0].addr.family);
    case Site(names) =>
      NameListedUnion(AppendNovel(d.domains, names), d.domains, names, q.name);
    case Name(n) =>
      NameListedUnion(AppendNovel(d.domains, [n]), d.domains, [n], q.name);
      assert n in AppendNovel(d.domains, [n]);
  }

  lemma {:induction false} AddTokensMeaning(tokens: seq<Token>, q: Query)
    requires AddTokens(tokens).Some?
    ensures DestinationsMatch(AddTokens(tokens).value, q) <==> AnyTokenMatches(tokens, q)
    ensures AddTokens(tokens).value == NO_DESTINATIONS <==> tokens == []
  {
    if tokens != [] {
      var init, last := tokens[..|tokens| - 1], tokens[|tokens| - 1];
      AddTokensMeaning(init, q);
      AddTokenMeaning(AddTokens(init).value, last, q);
      SplitLast(tokens);
      if AnyTokenMatches(init, q) {
        var i :| 0 <= i < |init| && TokenMatches(init[i], q);
        assert TokenMatches(tokens[i], q);
      }
      if TokenMatches(last, q) {
        assert TokenMatches(tokens[|init|], q);
      }
    }
  }

  lemma {:induction false} SourcePrefixesMeaning(sources: seq<Option<Prefix>>, a: Addr)
    requires AllParse(sources)
    ensures |SourcePrefixes(sources)| == |sources|
    ensures Covered(SourcePrefixes(sources), a) <==> AnySourceContains(sources, a)
  {
    if sources != [] {
      var init, last := sources[..|sources| - 1], sources[|sources| - 1];
      SourcePrefixesMeaning(init, a);
      SplitLast(sources);
      CoveredConcat(SourcePrefixes(init), [last.value], a);
      assert Covered([last.value], a) <==> Contains([last.value][0], a);
      if AnySourceContains(init, a) {
        var i :| 0 <= i < |init| && init[i].Some? && Contains(init[i].value, a);
        assert sources[i].Some? && Contains(sources[i].value, a);
      }
      if Contains(last.value, a) {
        assert sources[|init|].Some? && Contains(sources[|init|].value, a);
      }
    }
  }

  /** A lowered rule matches the queries its loaded rule matches, whatever its
      index. */
  lemma LowerMeaning(l: LoadedRule, index: nat, q: Query)
    requires l.applies && Lowerable(l)
    ensures RuleMatches(Lower(l, index), q) <==> LoadedMatches(l, q)
  {
    var d := AddTokens(l.tokens).value;
    AddTokensMeaning(l.tokens, q);
    NormalFormCovers(d.ipv4, q.dest);
    NormalFormCovers(d.ipv6, q.dest);
    NormalFormEmpty(d.ipv4);
    NormalFormEmpty(d.ipv6);
    SourceMeaning(l, index, q.source);
  }

  lemma SourceMeaning(l: LoadedRule, index: nat, a: Addr)
    requires Lowerable(l)
    ensures SourceAllows(Lower(l, index), a) <==> l.sources == [] || AnySourceContains(l.sources, a)
  {
    var ps := SourcePrefixes(l.sources);
    SourcePrefixesMeaning(l.sources, a);
    OfFamilyCovers(ps, a);
    NormalFormCovers(OfFamily(ps, V4), a);
    NormalFormCovers(OfFamily(ps, V6), a);
    NormalFormEmpty(OfFamily(ps, V4));
    NormalFormEmpty(OfFamily(ps, V6));
    if ps != [] {
      assert ps[0] in OfFamily(ps, ps[0].addr.family);
    }
  }

  // ---- coalescing -------------------------------------------------------------

  predicate Mergeable(a: IngressRule, b: IngressRule) {
    && a.domains != [] && b.domains != []
    && a.ipv4 == [] && a.ipv6 == [] && b.ipv4 == [] && b.ipv6 == []
    && a.action == b.action && a.network == b.network && a.ports == b.ports
    && a.source4 == b.source4 && a.source6 == b.source6
  }

  function AddRule(out: seq<IngressRule>, rule: IngressRule): seq<IngressRule> {
    if out != [] && Mergeable(out[|out| - 1], rule) then
      var previous := out[|out| - 1];
      out[|out| - 1 := previous.(domains := AppendNovel(previous.domains, rule.domains))]
    else out + [rule.(index := |out|)]
  }

  function Coalesce(rules: seq<IngressRule>): seq<IngressRule> {
    if rules == [] then [] else AddRule(Coalesce(rules[..|rules| - 1]), rules[|rules| - 1])
  }

  function Groups(rules: seq<IngressRule>): nat {
    if rules == [] then 0 else
      Groups(rules[..|rules| - 1]) + if rules[|rules| - 1].domains != [] then 1 else 0
  }

  lemma {:induction false} FirstMatchConcat(s: seq<IngressRule>, t: seq<IngressRule>, q: Query)
    ensures FirstMatch(s + t, q) == if FirstMatch(s, q).Some? then FirstMatch(s, q) else FirstMatch(t, q)
  {
    if s == [] {
      assert s + t == t;
    } else {
      assert (s + t)[1..] == s[1..] + t;
      FirstMatchConcat(s[1..], t, q);
    }
  }

  lemma FirstMatchSnoc(s: seq<IngressRule>, r: IngressRule, q: Query)
    ensures FirstMatch(s + [r], q) ==
            if FirstMatch(s, q).Some? then FirstMatch(s, q) else if RuleMatches(r, q) then Some(r.action) else None
  {
    FirstMatchConcat(s, [r], q);
  }

  lemma MergedRuleMatches(a: IngressRule, b: IngressRule, q: Query)
    requires Mergeable(a, b)
    ensures RuleMatches(a.(domains := AppendNovel(a.domains, b.domains)), q) <==> RuleMatches(a, q) || RuleMatches(b, q)
  {
    var domains := AppendNovel(a.domains, b.domains);
    NameListedUnion(domains, a.domains, b.domains, q.name);
    assert a.domains[0] in domains;
    assert SourceAllows(a.(domains := domains), q.source) == SourceAllows(a, q.source) == SourceAllows(b, q.source);
  }

  lemma AddRulePreserves(out: seq<IngressRule>, rule: IngressRule, q: Query)
    ensures FirstMatch(AddRule(out, rule), q) == FirstMatch(out + [rule], q)
  {
    var next := AddRule(out, rule);
    FirstMatchConcat(out, [rule], q);
    if out != [] && Mergeable(out[|out| - 1], rule) {
      var init, previous := out[..|out| - 1], out[|out| - 1];
      var merged := previous.(domains := AppendNovel(previous.domains, rule.domains));
      assert out == init + [previous] && next == init + [merged];
      FirstMatchConcat(init, [previous], q);
      FirstMatchConcat(init, [merged], q);
      MergedRuleMatches(previous, rule, q);
    } else {
      FirstMatchConcat(out, [rule.(index := |out|)], q);
      assert RuleMatches(rule.(index := |out|), q) == RuleMatches(rule, q);
    }
  }

  /** Coalescing, through merge chains of any length, changes no verdict. */
  lemma {:induction false} CoalescePreserves(rules: seq<IngressRule>, q: Query)
    ensures FirstMatch(Coalesce(rules), q) == FirstMatch(rules, q)
  {
    if rules != [] {
      var init, last := rules[..|rules| - 1], rules[|rules| - 1];
      CoalescePreserves(init, q);
      AddRulePreserves(Coalesce(init), last, q);
      FirstMatchConcat(Coalesce(init), [last], q);
      FirstMatchConcat(init, [last], q);
      SplitLast(rules);
    }
  }

  /** Every surviving rule's index is its position, and no two adjacent
      survivors could still be merged. */
  lemma {:induction false} CoalesceShape(rules: seq<IngressRule>)
    ensures |Coalesce(rules)| <= |rules|
    ensures forall i :: 0 <= i < |Coalesce(rules)| ==> Coalesce(rules)[i].index == i
    ensures forall i :: 0 < i < |Coalesce(rules)| ==> !Mergeable(Coalesce(rules)[i - 1], Coalesce(rules)[i])
    ensures rules != [] ==>
            Coalesce(rules) != [] && SameShape(Coalesce(rules)[|Coalesce(rules)| - 1], rules[|rules| - 1])
  {
    if rules != [] {
      CoalesceShape(rules[..|rules| - 1]);
    }
  }

  /** Two rules that merge with the same rules. */
  predicate SameShape(a: IngressRule, b: IngressRule) {
    && (a.domains == [] <==> b.domains == []) && a.ipv4 == b.ipv4 && a.ipv6 == b.ipv6
    && a.action == b.action && a.network == b.network && a.ports == b.ports
    && a.source4 == b.source4 && a.source6 == b.source6
  }

  /** A domain rule that opens a new ChinaDNS group: it cannot merge with the
      rule just before it. */
  predicate OpensGroup(rules: seq<IngressRule>, i: nat)
    requires i < |rules|
  {
    rules[i].domains != [] && (i == 0 || !Mergeable(rules[i - 1], rules[i]))
  }

  function GroupOpenings(rules: seq<IngressRule>): nat {
    if rules == [] then 0 else
      GroupOpenings(rules[..|rules| - 1]) + if OpensGroup(rules, |rules| - 1) then 1 else 0
  }

  /** One group per maximal run of mergeable neighbours. */
  lemma {:induction false} GroupsAreRuns(rules: seq<IngressRule>)
    ensures Groups(Coalesce(rules)) == GroupOpenings(rules)
  {
    if rules != [] {
      var init, last := rules[..|rules| - 1], rules[|rules| - 1];
      GroupsAreRuns(init);
      AddRuleGroups(Coalesce(init), last);
      OpensGroupInBoth(init, last);
    }
  }

  lemma OpensGroupInBoth(init: seq<IngressRule>, last: IngressRule)
    ensures init == [] <==> Coalesce(init) == []
    ensures init != [] ==> (Mergeable(Coalesce(init)[|Coalesce(init)| - 1], last) <==>
            Mergeable(init[|init| - 1], last))
  {}

  lemma AddRuleGroups(out: seq<IngressRule>, rule: IngressRule)
    ensures Groups(AddRule(out, rule)) == Groups(out) +
              if rule.domains != [] && !(out != [] && Mergeable(out[|out| - 1], rule)) then 1 else 0
  {
    if out != [] && Mergeable(out[|out| - 1], rule) {
      assert AddRule(out, rule)[..|out| - 1] == out[..|out| - 1];
    } else {
      assert AddRule(out, rule)[..|out|] == out;
    }
  }

  // ---- the whole build ----------------------------------------------------------

  predicate AllLowerable(loaded: seq<LoadedRule>) {
    forall i :: 0 <= i < |loaded| && loaded[i].applies ==> Lowerable(loaded[i])
  }

  /** The applicable rules lowered one by one, before coalescing. */
  function LoweredRules(loaded: seq<LoadedRule>): seq<IngressRule>
    requires AllLowerable(loaded)
  {
    if loaded == [] then [] else
      var init, last := LoweredRules(loaded[..|loaded| - 1]), loaded[|loaded| - 1];
      if last.applies then init + [Lower(last, 0)] else init
  }

  /** When a snapshot yields a policy: its tags agree, every applicable rule can
      be lowered, and at most six groups are needed. */
  predicate Acceptable(loaded: seq<LoadedRule>) {
    TagsAgree(loaded) && AllLowerable(loaded) && GroupOpenings(LoweredRules(loaded)) <= MAX_DNS_GROUPS
  }

  lemma {:induction false} GroupsGrow(rules: seq<IngressRule>, i: nat)
    requires i <= |rules|
    ensures GroupOpenings(rules[..i]) <= GroupOpenings(rules)
    decreases |rules| - i
  {
    if i == |rules| {
      assert rules[..i] == rules;
    } else {
      TakeNext(rules, i);
      GroupsGrow(rules, i + 1);
    }
  }

  lemma {:induction false} LoweredPrefix(loaded: seq<LoadedRule>, i: nat)
    requires i <= |loaded| && AllLowerable(loaded)
    ensures AllLowerable(loaded[..i]) && LoweredRules(loaded[..i]) <= LoweredRules(loaded)
    decreases |loaded| - i
  {
    if i == |loaded| {
      assert loaded[..i] == loaded;
    } else {
      LoweredPrefix(loaded, i + 1);
      TakeNext(loaded, i);
    }
  }

  /** Merge the rule into the last one, or append it, opening a group when it
      has domains. */
  method CoalesceInto(out: Policy, rule: IngressRule) returns (r: Result<Policy>)
    requires out.dynamicGroups == Groups(out.rules) && rule.index == |out.rules|
    ensures r.Err? <==>
            Groups(AddRule(out.rules, rule)) > MAX_DNS_GROUPS && Groups(out.rules) < Groups(AddRule(out.rules, rule))
    ensures r.Ok? ==> r.value == Policy(AddRule(out.rules, rule), Groups(AddRule(out.rules, rule)), out.tunnelTag)
  {
    AddRuleGroups(out.rules, rule);
    var rules, groups := out.rules, out.dynamicGroups;
    if |rule.domains| > 0 && |rules| > 0 {
      var previous := rules[|rules| - 1];
      if Mergeable(previous, rule) {
        var domains := AppendUniqueDomains(previous.domains, rule.domains);
        return Ok(Policy(rules[|rules| - 1 := previous.(domains := domains)], groups, out.tunnelTag));
      }
    }
    if |rule.domains| > 0 {
      groups := groups + 1;
      if groups > MAX_DNS_GROUPS {
        return Err(TooManyGroups);
      }
    }
    r := Ok(Policy(rules + [rule], groups, out.tunnelTag));
  }

  lemma LoweredStep(loaded: seq<LoadedRule>, i: nat)
    requires i < |loaded| && loaded[i].applies && AllLowerable(loaded[..i]) && Lowerable(loaded[i])
    ensures AllLowerable(loaded[..i + 1])
    ensures LoweredRules(loaded[..i + 1]) == LoweredRules(loaded[..i]) + [Lower(loaded[i], 0)]
    ensures var out := Coalesce(LoweredRules(loaded[..i]));
            Coalesce(LoweredRules(loaded[..i + 1])) == AddRule(out, Lower(loaded[i], |out|))
  {
    TakeNext(loaded, i);
    var before := LoweredRules(loaded[..i]);
    CoalesceSnoc(before, Lower(loaded[i], 0), |Coalesce(before)|);
  }

  lemma CoalesceSnoc(rules: seq<IngressRule>, rule: IngressRule, index: nat)
    ensures Coalesce(rules + [rule]) == AddRule(Coalesce(rules), rule.(index := index))
  {
    assert (rules + [rule])[..|rules|] == rules;
  }

  method BuildIngressPolicy(loaded: seq<LoadedRule>) returns (r: Result<Policy>)
    ensures r.Ok? <==> Acceptable(loaded)
    ensures r.Ok? ==>
              && r.value.rules == Coalesce(LoweredRules(loaded))
              && r.value.dynamicGroups == Groups(r.value.rules) <= MAX_DNS_GROUPS
              && SelectsTag(loaded, r.value.tunnelTag)
  {
    if |loaded| == 0 {
      return Ok(Policy([], 0, ""));
    }
    var tunnel := LocalTunnelOutbound(loaded);
    if tunnel.Err? {
      return Err(tunnel.error);
    }
    var out := Policy([], 0, tunnel.value);
    for i := 0 to |loaded|
      invariant out.tunnelTag == tunnel.value && BuiltUpTo(out, loaded, i)
    {
      if !loaded[i].applies {
        TakeNext(loaded, i);
        continue;
      }
      var next := AddLoaded(out, loaded, i);
      if next.Err? {
        return Err(next.error);
      }
      out := next.value;
    }
    TakeAll(loaded);
    GroupsAreRuns(LoweredRules(loaded));
    r := Ok(out);
  }

  /** The policy so far stands for the first i loaded rules. */
  predicate BuiltUpTo(out: Policy, loaded: seq<LoadedRule>, i: nat)
    requires i <= |loaded|
  {
    && AllLowerable(loaded[..i]) && out.rules == Coalesce(LoweredRules(loaded[..i]))
    && out.dynamicGroups == Groups(out.rules) <= MAX_DNS_GROUPS
  }

  /** One round of the loop, for an applicable rule. */
  method AddLoaded(out: Policy, loaded: seq<LoadedRule>, i: nat) returns (r: Result<Policy>)
    requires i < |loaded| && loaded[i].applies && BuiltUpTo(out, loaded, i) && SelectsTag(loaded, out.tunnelTag)
    ensures r.Ok? ==> r.value.tunnelTag == out.tunnelTag && BuiltUpTo(r.value, loaded, i + 1)
    ensures r.Err? ==> !Acceptable(loaded)
  {
    if loaded[i].tag == "" {
      return Err(NoOutbound);
    }
    if IsTunnelTag(loaded[i].tag) && loaded[i].tag != out.tunnelTag {
      return Err(UnexpectedTag);
    }
    var lowered := LowerRule(loaded[i], out.tunnelTag, |out.rules|);
    if lowered.Err? {
      return Err(lowered.error);
    }
    LoweredStep(loaded, i);
    r := CoalesceInto(out, lowered.value);
    if r.Err? {
      TooManyGroupsRejects(loaded, i + 1);
    }
  }

  lemma TooManyGroupsRejects(loaded: seq<LoadedRule>, i: nat)
    requires i <= |loaded| && AllLowerable(loaded[..i])
    requires Groups(Coalesce(LoweredRules(loaded[..i]))) > MAX_DNS_GROUPS
    ensures !Acceptable(loaded)
  {
    if AllLowerable(loaded) {
      LoweredPrefix(loaded, i);
      var rules, all := LoweredRules(loaded[..i]), LoweredRules(loaded);
      GroupsAreRuns(rules);
      assert rules == all[..|rules|];
      GroupsGrow(all, |rules|);
    }
  }

  lemma {:induction false} FirstLoadedConcat(s: seq<LoadedRule>, t: seq<LoadedRule>, q: Query)
    ensures FirstLoaded(s + t, q) == if FirstLoaded(s, q).Some? then FirstLoaded(s, q) else FirstLoaded(t, q)
  {
    if s == [] {
      assert s + t == t;
    } else {
      assert (s + t)[1..] == s[1..] + t;
      FirstLoadedConcat(s[1..], t, q);
    }
  }

  lemma FirstLoadedSnoc(s: seq<LoadedRule>, l: LoadedRule, q: Query)
    ensures FirstLoaded(s + [l], q) ==
            if FirstLoaded(s, q).Some? then FirstLoaded(s, q)
              else if LoadedMatches(l, q) then Some(TagAction(l.tag)) else None
  {
    FirstLoadedConcat(s, [l], q);
  }

  lemma {:induction false} LoweredMeaning(loaded: seq<LoadedRule>, q: Query)
    requires AllLowerable(loaded)
    ensures FirstMatch(LoweredRules(loaded), q) == FirstLoaded(loaded, q)
  {
    if loaded != [] {
      var init, last := loaded[..|loaded| - 1], loaded[|loaded| - 1];
      LoweredMeaning(init, q);
      SplitLast(loaded);
      FirstLoadedSnoc(init, last, q);
      if last.applies {
        LowerMeaning(last, 0, q);
        FirstMatchSnoc(LoweredRules(init), Lower(last, 0), q);
      }
    }
  }

  /** End to end: lowering, normalising, deduplicating and coalescing give every
      query the verdict of the first applicable loaded rule that matches it. */
  lemma PolicyMeaning(loaded: seq<LoadedRule>, q: Query)
    requires Acceptable(loaded)
    ensures FirstMatch(Coalesce(LoweredRules(loaded)), q) == FirstLoaded(loaded, q)
  {
    CoalescePreserves(LoweredRules(loaded), q);
    LoweredMeaning(loaded, q);
  }
}

/** The local-TUN policy from end to end: from the rules of a snapshot, through the
    policy compiler and the DNS daemon's sets, to the fate of a packet
    (internal/localtun/policy.go and selective_linux.go). */
module LocalTunnel {
  import opened DnsGroups
  import opened DomainNames
  import opened IngressPolicy
  import opened NftCompiler
  import opened Options
  import opened Prefixes

  /** The question that a TCP or UDP packet to a host of this name puts to the panel's
      rules. Without a name the packet was sent to a bare address. */
  function QueryOf(p: Packet, name: Option<string>): Query {
    Query(if p.proto == TcpL4 then TcpProto else UdpProto, p.dport, p.saddr, p.daddr, name)
  }

  // ---- what the DNS sets hold ------------------------------------------------------------

  /** One answer of the DNS daemon: an address for a name. */
  datatype Answer = Answer(name: string, addr: Addr)

  /** Everything in the sets after these answers: each address goes into the set of the
      one group its name belongs to, and stays there. */
  function Filled(groups: seq<Group>, history: seq<Answer>): set<(nat, Addr)> {
    if history == [] then {} else
      var last := history[|history| - 1];
      Filled(groups, history[..|history| - 1]) +
      match Winner(groups, last.name)
      case None => {}
      case Some(i) => {(i, last.addr)}
  }

  /** The sets as the daemon has filled them. */
  function ManagedSets(rules: seq<IngressRule>, history: seq<Answer>): DnsSets {
    (i: nat, a: Addr) => (i, a) in Filled(Reversed(DomainGroups(rules)), history)
  }

  predicate Lists(rules: seq<IngressRule>, i: nat, name: Option<string>)
    requires i < |rules|
  {
    NameListed(rules[i].domains, name)
  }

  predicate FirstLists(rules: seq<IngressRule>, i: nat, name: string)
    requires i < |rules|
  {
    Lists(rules, i, Some(name)) && forall k :: 0 <= k < i ==> !Lists(rules, k, Some(name))
  }

  predicate ListedTwice(rules: seq<IngressRule>, name: string) {
    exists i, j :: 0 <= i < j < |rules| && Lists(rules, i, Some(name)) && Lists(rules, j, Some(name))
  }

  /** Some name that was answered with this address has rule i as its first rule. */
  predicate Brings(rules: seq<IngressRule>, history: seq<Answer>, a: Addr, i: nat)
    requires i < |rules|
  {
    exists k :: 0 <= k < |history| && history[k].addr == a && FirstLists(rules, i, history[k].name)
  }

  /** For this address every domain rule's set says what its list says of the name. */
  predicate Agrees(rules: seq<IngressRule>, dns: DnsSets, name: Option<string>, a: Addr) {
    forall i :: 0 <= i < |rules| && rules[i].domains != [] ==> (dns(rules[i].index, a) <==> Lists(rules, i, name))
  }

  lemma {:induction false} FilledIff(groups: seq<Group>, history: seq<Answer>, i: nat, a: Addr)
    ensures (i, a) in Filled(groups, history) <==>
            exists k :: 0 <= k < |history| && history[k].addr == a && Winner(groups, history[k].name) == Some(i)
  {
    if history != [] {
      var init, last := history[..|history| - 1], history[|history| - 1];
      FilledIff(groups, init, i, a);
      if (i, a) in Filled(groups, init) {
        var k :| 0 <= k < |init| && init[k].addr == a && Winner(groups, init[k].name) == Some(i);
        assert history[k] == init[k];
      }
      assert forall k :: 0 <= k < |init| ==> init[k] == history[k];
    }
  }

  lemma {:induction false} FirstDomainRuleAt(rules: seq<IngressRule>, from: nat, name: string, i: nat)
    requires from <= |rules| && i < |rules| && forall k :: 0 <= k < |rules| ==> rules[k].index == k
    ensures FirstDomainRule(rules[from..], name) == Some(i) <==>
            from <= i && Lists(rules, i, Some(name)) && forall k :: from <= k < i ==> !Lists(rules, k, Some(name))
    decreases |rules| - from
  {
    if from < |rules| {
      var head := rules[from];
      assert rules[from..][0] == head && rules[from..][1..] == rules[from + 1..];
      assert Lists(rules, from, Some(name)) == NameListed(head.domains, Some(name));
      FirstDomainRuleAt(rules, from + 1, name, i);
    }
  }

  lemma WinnerIsFirst(rules: seq<IngressRule>, name: string, i: nat)
    requires WellFormed(rules) && i < |rules|
    ensures Winner(Reversed(DomainGroups(rules)), name) == Some(i) <==> FirstLists(rules, i, name)
  {
    GroupPriority(rules, name);
    FirstDomainRuleAt(rules, 0, name, i);
    assert rules[0..] == rules;
  }

  lemma ManagedSetAt(rules: seq<IngressRule>, history: seq<Answer>, a: Addr, i: nat)
    requires WellFormed(rules) && i < |rules|
    ensures ManagedSets(rules, history)(i, a) <==> Brings(rules, history, a, i)
  {
    var groups := Reversed(DomainGroups(rules));
    FilledIff(groups, history, i, a);
    forall k | 0 <= k < |history|
      ensures Winner(groups, history[k].name) == Some(i) <==> FirstLists(rules, i, history[k].name)
    {
      WinnerIsFirst(rules, history[k].name, i);
    }
  }

  /** The first rule of every name answered with this address lists this name too, and
      every rule that lists this name is the first rule of a name answered so. */
  predicate SharedFairly(rules: seq<IngressRule>, history: seq<Answer>, name: Option<string>, a: Addr) {
    && (forall i :: 0 <= i < |rules| && Brings(rules, history, a, i) ==> Lists(rules, i, name))
    && (forall i :: 0 <= i < |rules| && Lists(rules, i, name) ==> Brings(rules, history, a, i))
  }

  /** Exactly then do the daemon's sets agree with the rules' lists. */
  lemma ManagedSetsAgreeIff(rules: seq<IngressRule>, history: seq<Answer>, name: Option<string>, a: Addr)
    requires WellFormed(rules)
    ensures Agrees(rules, ManagedSets(rules, history), name, a) <==> SharedFairly(rules, history, name, a)
  {
    var dns := ManagedSets(rules, history);
    forall i | 0 <= i < |rules| ensures dns(rules[i].index, a) <==> Brings(rules, history, a, i) {
      ManagedSetAt(rules, history, a, i);
    }
  }

  /** For an address that was answered for one name only, it comes down to whether two
      domain rules list that name. */
  lemma OnlyNameSharedIff(rules: seq<IngressRule>, history: seq<Answer>, name: string, a: Addr)
    requires Answer(name, a) in history
    requires forall k :: 0 <= k < |history| && history[k].addr == a ==> history[k].name == name
    ensures SharedFairly(rules, history, Some(name), a) <==> !ListedTwice(rules, name)
  {
    var k :| 0 <= k < |history| && history[k] == Answer(name, a);
    forall i | 0 <= i < |rules| ensures Brings(rules, history, a, i) <==> FirstLists(rules, i, name) {
      if FirstLists(rules, i, name) {
        assert FirstLists(rules, i, history[k].name);
      }
    }
    if ListedTwice(rules, name) {
      var i, j :| 0 <= i < j < |rules| && Lists(rules, i, Some(name)) && Lists(rules, j, Some(name));
      assert !FirstLists(rules, j, name);
    }
  }

  // ---- packets and queries ---------------------------------------------------------------

  lemma RuleAppliesAsMatches(r: IngressRule, dns: DnsSets, name: Option<string>, p: Packet)
    requires p.proto != OtherL4
    requires r.domains != [] ==> (dns(r.index, p.daddr) <==> NameListed(r.domains, name))
    ensures RuleApplies(r, dns, p) <==> RuleMatches(r, QueryOf(p, name))
  {}

  lemma {:induction false} FirstActionIsFirstMatch(
        rules: seq<IngressRule>, dns: DnsSets, name: Option<string>, p: Packet)
    requires p.proto != OtherL4 && Agrees(rules, dns, name, p.daddr)
    ensures FirstAction(rules, dns, p) == FirstMatch(rules, QueryOf(p, name))
    decreases |rules|
  {
    if rules != [] {
      assert Lists(rules, 0, name) == NameListed(rules[0].domains, name);
      RuleAppliesAsMatches(rules[0], dns, name, p);
      var rest := rules[1..];
      forall i | 0 <= i < |rest| && rest[i].domains != []
        ensures dns(rest[i].index, p.daddr) <==> Lists(rest, i, name)
      {
        assert rest[i] == rules[i + 1];
        assert Lists(rules, i + 1, name) == Lists(rest, i, name);
      }
      FirstActionIsFirstMatch(rest, dns, name, p);
    }
  }

  // ---- the shape that emits no line ---------------------------------------------------------

  predicate HasSource(l: LoadedRule, f: Family) {
    exists i :: 0 <= i < |l.sources| && l.sources[i].Some? && l.sources[i].value.addr.family == f
  }

  /** A rule of the snapshot with a destination and sources of both families. */
  predicate SplitLoaded(l: LoadedRule) { l.applies && l.tokens != [] && HasSource(l, V4) && HasSource(l, V6) }

  lemma {:induction false} SourcePrefixesHold(sources: seq<Option<Prefix>>, p: Prefix)
    ensures p in SourcePrefixes(sources) <==> Some(p) in sources
  {
    if sources != [] {
      SourcePrefixesHold(sources[..|sources| - 1], p);
      assert sources == sources[..|sources| - 1] + [sources[|sources| - 1]];
    }
  }

  lemma SourceFamilyLowered(l: LoadedRule, f: Family)
    ensures NormalForm(OfFamily(SourcePrefixes(l.sources), f)) != [] <==> HasSource(l, f)
  {
    var ps := SourcePrefixes(l.sources);
    NormalFormEmpty(OfFamily(ps, f));
    if OfFamily(ps, f) != [] {
      var p := OfFamily(ps, f)[0];
      assert p in OfFamily(ps, f);
      SourcePrefixesHold(l.sources, p);
    }
    if HasSource(l, f) {
      var i :| 0 <= i < |l.sources| && l.sources[i].Some? && l.sources[i].value.addr.family == f;
      assert l.sources[i] == Some(l.sources[i].value);
      SourcePrefixesHold(l.sources, l.sources[i].value);
      assert l.sources[i].value in OfFamily(ps, f);
    }
  }

  lemma LoweredSplitIff(l: LoadedRule, index: nat)
    requires Lowerable(l) && l.applies
    ensures SplitSources(Lower(l, index)) <==> SplitLoaded(l)
  {
    var d := AddTokens(l.tokens).value;
    SourceFamilyLowered(l, V4);
    SourceFamilyLowered(l, V6);
    NormalFormEmpty(d.ipv4);
    NormalFormEmpty(d.ipv6);
    TokensPresent(l.tokens);
  }

  lemma TokensPresent(tokens: seq<Token>)
    requires AddTokens(tokens).Some?
    ensures AddTokens(tokens).value == NO_DESTINATIONS <==> tokens == []
  {
    var a: Addr := Addr(V4, Zeros(32));
    AddTokensMeaning(tokens, Query(TcpProto, 0, a, a, None));
  }

  predicate NoneSplit(rules: seq<IngressRule>) { forall i :: 0 <= i < |rules| ==> !SplitSources(rules[i]) }

  lemma {:induction false} CoalesceSplitsNone(rules: seq<IngressRule>)
    requires NoneSplit(rules)
    ensures NoneSplit(Coalesce(rules))
  {
    if rules != [] {
      CoalesceSplitsNone(rules[..|rules| - 1]);
    }
  }

  lemma {:induction false} LoweredSplitsNone(loaded: seq<LoadedRule>)
    requires AllLowerable(loaded) && forall i :: 0 <= i < |loaded| ==> !SplitLoaded(loaded[i])
    ensures NoneSplit(LoweredRules(loaded))
  {
    if loaded != [] {
      LoweredSplitsNone(loaded[..|loaded| - 1]);
      if loaded[|loaded| - 1].applies {
        LoweredSplitIff(loaded[|loaded| - 1], 0);
      }
    }
  }

  // ---- end to end -----------------------------------------------------------------------------

  /** For every acceptable snapshot without a rule of that shape and every packet: if
      the DNS sets agree with the rules about the packet's destination, the compiled
      chain gives the packet the fate of first-match over the loaded rules. */
  lemma CompiledFateIsLoadedFate(
        loaded: seq<LoadedRule>, st: Setting, dns: DnsSets, name: Option<string>, p: Packet)
    requires Acceptable(loaded) && forall i :: 0 <= i < |loaded| ==> !SplitLoaded(loaded[i])
    requires Agrees(Coalesce(LoweredRules(loaded)), dns, name, p.daddr)
    ensures var rules := Coalesce(LoweredRules(loaded));
      VerdictFate(FirstHit(Classify(rules, st), DeclareSets(rules, st), dns, p)) ==
      FateOf(FirstLoaded(loaded, QueryOf(p, name)), st, p)
  {
    var rules := Coalesce(LoweredRules(loaded));
    AcceptedPoliciesCompile(loaded, st, dns, p);
    LoweredSplitsNone(loaded);
    CoalesceSplitsNone(LoweredRules(loaded));
    NothingSplit(rules);
    if p.proto != OtherL4 {
      FirstActionIsFirstMatch(rules, dns, name, p);
      PolicyMeaning(loaded, QueryOf(p, name));
    }
  }

  /** The fate that the compiled chain of a snapshot gives a packet, with the sets as the
      daemon has filled them. */
  function ChainFate(loaded: seq<LoadedRule>, st: Setting, history: seq<Answer>, p: Packet): Fate
    requires AllLowerable(loaded)
  {
    var rules := Coalesce(LoweredRules(loaded));
    VerdictFate(FirstHit(Classify(rules, st), DeclareSets(rules, st), ManagedSets(rules, history), p))
  }

  /** The chain's fate is that of first-match over the loaded rules, whatever the daemon
      has answered, for every packet whose address is shared fairly. */
  lemma ManagedFateIsLoadedFate(
        loaded: seq<LoadedRule>, st: Setting, history: seq<Answer>, name: Option<string>, p: Packet)
    requires Acceptable(loaded) && forall i :: 0 <= i < |loaded| ==> !SplitLoaded(loaded[i])
    requires SharedFairly(Coalesce(LoweredRules(loaded)), history, name, p.daddr)
    ensures ChainFate(loaded, st, history, p) == FateOf(FirstLoaded(loaded, QueryOf(p, name)), st, p)
  {
    var rules := Coalesce(LoweredRules(loaded));
    var dns := ManagedSets(rules, history);
    AcceptedPoliciesCompile(loaded, st, dns, p);
    ManagedSetsAgreeIff(rules, history, name, p.daddr);
    CompiledFateIsLoadedFate(loaded, st, dns, name, p);
  }

  // ---- where it fails ---------------------------------------------------------------------------

  const V4_HOST: Prefix := Prefix(Addr(V4, Zeros(32)), 32)
  const V6_HOST: Prefix := Prefix(Addr(V6, Zeros(128)), 128)

  /** Block one destination for sources of both families. */
  predicate BlocksBothFamilies(l: LoadedRule) {
    && l.applies && l.tag == "block" && l.network == AnyNetwork && l.ports == Some([])
    && l.sources == [Some(V4_HOST), Some(V6_HOST)] && l.tokens == [Addrs([V4_HOST])]
  }

  lemma SplitRuleLowers(l: LoadedRule)
    requires BlocksBothFamilies(l)
    ensures Lowerable(l) && SplitLoaded(l)
  {
    OneToken(V4_HOST);
    assert l.sources[0] == Some(V4_HOST) && l.sources[1] == Some(V6_HOST);
  }

  lemma SplitRuleMatches(l: LoadedRule, q: Query)
    requires BlocksBothFamilies(l) && q == Query(TcpProto, 1, V4_HOST.addr, V4_HOST.addr, None)
    ensures LoadedMatches(l, q)
  {
    assert l.sources[0] == Some(V4_HOST) && l.sources[1] == Some(V6_HOST);
    assert Contains(V4_HOST, q.source) && Covered([V4_HOST], q.dest) by {
      assert Contains([V4_HOST][0], q.dest);
    }
    assert TokenMatches(l.tokens[0], q);
  }

  lemma SplitHasNoLines(r: IngressRule, ifaces: seq<string>)
    requires SplitSources(r)
    ensures RuleLines(r, ifaces) == []
  {}

  lemma OneAccepted(l: LoadedRule)
    requires l.applies && l.tag != "" && Lowerable(l)
    ensures Acceptable([l]) && Coalesce(LoweredRules([l])) == [Lower(l, 0)]
  {
    LoweredOne(l);
    CoalescedOne(Lower(l, 0));
  }

  /** The snapshot with just that rule is accepted, the rule matches traffic, and not
      one line is emitted for it. */
  lemma SplitRuleEmitsNothing(l: LoadedRule)
    requires BlocksBothFamilies(l)
    ensures Acceptable([l]) && LoadedMatches(l, Query(TcpProto, 1, V4_HOST.addr, V4_HOST.addr, None))
    ensures var rules := Coalesce(LoweredRules([l]));
      |rules| == 1 && forall ifaces :: RuleLines(rules[0], ifaces) == []
  {
    SplitRuleLowers(l);
    SplitRuleMatches(l, Query(TcpProto, 1, V4_HOST.addr, V4_HOST.addr, None));
    LoweredSplitIff(l, 0);
    OneAccepted(l);
    forall ifaces ensures RuleLines(Lower(l, 0), ifaces) == [] {
      SplitHasNoLines(Lower(l, 0), ifaces);
    }
  }

  lemma OneOfFamily(p: Prefix, f: Family)
    ensures OfFamily([p], f) == if p.addr.family == f then [p] else []
  {
    OfFamilySnoc([], p);
    assert [] + [p] == [p];
  }

  lemma OneToken(p: Prefix)
    requires p.addr.family == V4
    ensures AddTokens([Addrs([p])]) == Some(Destinations([p], [], []))
  {
    OneOfFamily(p, V4);
    OneOfFamily(p, V6);
    assert NO_DESTINATIONS.ipv4 + [p] == [p] && NO_DESTINATIONS.ipv6 + [] == [];
    assert AddToken(NO_DESTINATIONS, Addrs([p])) == Some(Destinations([p], [], []));
    assert [Addrs([p])][..0] == [];
  }

  lemma LoweredOne(l: LoadedRule)
    requires l.applies && Lowerable(l)
    ensures AllLowerable([l]) && LoweredRules([l]) == [Lower(l, 0)]
  {
    assert [l][..0] == [];
  }

  lemma CoalescedOne(r: IngressRule)
    ensures Coalesce([r]) == [r.(index := 0)] && GroupOpenings([r]) <= 1
  {
    assert [r][..0] == [];
  }

  lemma LoweredTwo(a: LoadedRule, b: LoadedRule)
    requires a.applies && Lowerable(a) && b.applies && Lowerable(b)
    ensures AllLowerable([a, b]) && LoweredRules([a, b]) == [Lower(a, 0), Lower(b, 0)]
  {
    LoweredOne(a);
    assert [a, b][..1] == [a];
  }

  lemma CoalescedTwo(a: IngressRule, b: IngressRule)
    requires a.index == 0 && !Mergeable(a, b)
    ensures Coalesce([a, b]) == [a, b.(index := 1)]
  {
    CoalescedOne(a);
    assert [a, b][..1] == [a];
  }

  lemma TwoGroups(a: IngressRule, b: IngressRule)
    ensures GroupOpenings([a, b]) <= 2
  {
    CoalescedOne(a);
    assert [a, b][..1] == [a];
  }

  /** A rule for one name, and what it is lowered to. */
  function Named(tag: string, network: Network, name: string): LoadedRule {
    LoadedRule(true, tag, network, Some([]), [], [Name(name)])
  }

  function LoweredName(index: nat, tag: string, network: Network, name: string): IngressRule {
    IngressRule(index, TagAction(tag), [], [], [name], [], [], network, [])
  }

  lemma OneName(name: string)
    ensures AddTokens([Name(name)]) == Some(Destinations([], [], [name]))
  {
    assert [Name(name)][..0] == [];
    assert AppendNovel([], [name]) == [name] by { assert [name][..0] == []; }
  }

  lemma NamedLowers(tag: string, network: Network, name: string)
    requires !network.Unsupported?
    ensures Lowerable(Named(tag, network, name))
    ensures Lower(Named(tag, network, name), 0) == LoweredName(0, tag, network, name)
  {
    OneName(name);
  }

  /** What two such rules come to when they cannot be merged. */
  lemma TwoNamed(loaded: seq<LoadedRule>, tag: string, network: Network, name: string,
        tag2: string, network2: Network, name2: string)
    requires loaded == [Named(tag, network, name), Named(tag2, network2, name2)]
    requires !network.Unsupported? && !network2.Unsupported? && TagsAgree(loaded)
    requires TagAction(tag) != TagAction(tag2) || network != network2
    ensures Acceptable(loaded)
    ensures Coalesce(LoweredRules(loaded)) ==
            [LoweredName(0, tag, network, name), LoweredName(1, tag2, network2, name2)]
  {
    NamedLowers(tag, network, name);
    NamedLowers(tag2, network2, name2);
    LoweredTwo(loaded[0], loaded[1]);
    var a, b := LoweredName(0, tag, network, name), LoweredName(0, tag2, network2, name2);
    CoalescedTwo(a, b);
    TwoGroups(a, b);
  }

  lemma TwoRulesFirst(rules: seq<IngressRule>, dns: DnsSets, p: Packet)
    requires |rules| == 2
    ensures FirstAction(rules, dns, p) ==
            if RuleApplies(rules[0], dns, p) then Some(rules[0].action)
            else if RuleApplies(rules[1], dns, p) then Some(rules[1].action) else None
  {
    assert rules[1..][0] == rules[1] && rules[1..][1..] == [];
    assert FirstAction(rules[1..], dns, p) == if RuleApplies(rules[1], dns, p) then Some(rules[1].action) else None;
  }

  lemma TwoLoadedFirst(loaded: seq<LoadedRule>, q: Query)
    requires |loaded| == 2
    ensures FirstLoaded(loaded, q) ==
            if LoadedMatches(loaded[0], q) then Some(TagAction(loaded[0].tag))
            else if LoadedMatches(loaded[1], q) then Some(TagAction(loaded[1].tag)) else None
  {
    assert loaded[1..][0] == loaded[1] && loaded[1..][1..] == [];
    assert FirstLoaded(loaded[1..], q) ==
           if LoadedMatches(loaded[1], q) then Some(TagAction(loaded[1].tag)) else None;
  }

  lemma NamedMatches(tag: string, network: Network, name: string, q: Query)
    requires q.name.Some?
    ensures LoadedMatches(Named(tag, network, name), q) <==>
            NetworkAllows(network, q.proto) && IsUnder(q.name.value, name)
  {
    var l := Named(tag, network, name);
    if IsUnder(q.name.value, name) {
      assert IsUnder(q.name.value, [name][0]);
      assert TokenMatches(l.tokens[0], q);
    }
  }

  /** A packet that the guards of the chain hand on to the rules. */
  predicate HandedOn(st: Setting, p: Packet) {
    p.iif in st.ifaces && !p.local && p.proto != OtherL4 && p.dport != 853 && !Bypassed(st, p.daddr)
  }

  lemma ChainFateIs(loaded: seq<LoadedRule>, rules: seq<IngressRule>, st: Setting, history: seq<Answer>, p: Packet)
    requires Acceptable(loaded) && rules == Coalesce(LoweredRules(loaded)) && NoneSplit(rules)
    ensures ChainFate(loaded, st, history, p) == FateOf(FirstAction(rules, ManagedSets(rules, history), p), st, p)
  {
    NothingSplit(rules);
    AcceptedPoliciesCompile(loaded, st, ManagedSets(rules, history), p);
  }

  /** A name passed for TCP by one rule and blocked by the next for everything. */
  predicate SharesName(loaded: seq<LoadedRule>) {
    loaded == [Named("direct", Tcp, "x"), Named("block", AnyNetwork, "x")]
  }

  lemma SharedNameSkipped(rules: seq<IngressRule>, history: seq<Answer>, p: Packet)
    requires rules == [LoweredName(0, "direct", Tcp, "x"), LoweredName(1, "block", AnyNetwork, "x")]
    requires p.proto == UdpL4
    ensures FirstAction(rules, ManagedSets(rules, history), p) == None
  {
    var dns := ManagedSets(rules, history);
    ManagedSetAt(rules, history, p.daddr, 1);
    forall k | 0 <= k < |history| ensures !FirstLists(rules, 1, history[k].name) {
      assert Lists(rules, 0, Some(history[k].name)) == Lists(rules, 1, Some(history[k].name));
    }
    assert !dns(1, p.daddr);
    TwoRulesFirst(rules, dns, p);
  }

  lemma SharedNameBlocked(loaded: seq<LoadedRule>, q: Query)
    requires SharesName(loaded) && q.proto == UdpProto && q.name == Some("x")
    ensures FirstLoaded(loaded, q) == Some(Block)
  {
    NamedMatches("direct", Tcp, "x", q);
    NamedMatches("block", AnyNetwork, "x", q);
    TwoLoadedFirst(loaded, q);
  }

  /** Where two rules list the same name the compiled chain can differ from the rules:
      whatever was answered, the name's addresses are in the first rule's set only, so a
      UDP packet misses both lines and takes the fallback although the second rule blocks
      it. */
  lemma SharedNameLosesRule(loaded: seq<LoadedRule>, st: Setting, history: seq<Answer>, p: Packet)
    requires SharesName(loaded) && HandedOn(st, p) && p.proto == UdpL4 && st.fallbackTag == "direct"
    ensures FateOf(FirstLoaded(loaded, QueryOf(p, Some("x"))), st, p) == Dropped
    ensures Acceptable(loaded) && ChainFate(loaded, st, history, p) == Passed
  {
    SharedNameBlocked(loaded, QueryOf(p, Some("x")));
    TwoNamed(loaded, "direct", Tcp, "x", "block", AnyNetwork, "x");
    var rules := Coalesce(LoweredRules(loaded));
    SharedNameSkipped(rules, history, p);
    ChainFateIs(loaded, rules, st, history, p);
  }

  /** One name blocked, another passed. */
  predicate BlocksOneName(loaded: seq<LoadedRule>) {
    loaded == [Named("block", AnyNetwork, "x"), Named("direct", AnyNetwork, "y")]
  }

  lemma SharedAddressHit(rules: seq<IngressRule>, history: seq<Answer>, p: Packet)
    requires rules == [LoweredName(0, "block", AnyNetwork, "x"), LoweredName(1, "direct", AnyNetwork, "y")]
    requires p.proto != OtherL4 && Answer("x", p.daddr) in history
    ensures FirstAction(rules, ManagedSets(rules, history), p) == Some(Block) && !ListedTwice(rules, "y")
  {
    var dns := ManagedSets(rules, history);
    ManagedSetAt(rules, history, p.daddr, 0);
    var k :| 0 <= k < |history| && history[k] == Answer("x", p.daddr);
    assert IsUnder("x", rules[0].domains[0]);
    assert FirstLists(rules, 0, history[k].name);
    assert dns(0, p.daddr);
    TwoRulesFirst(rules, dns, p);
    assert !Lists(rules, 0, Some("y"));
  }

  lemma OtherNamePassed(loaded: seq<LoadedRule>, q: Query)
    requires BlocksOneName(loaded) && q.name == Some("y")
    ensures FirstLoaded(loaded, q) == Some(Direct)
  {
    NamedMatches("block", AnyNetwork, "x", q);
    NamedMatches("direct", AnyNetwork, "y", q);
    TwoLoadedFirst(loaded, q);
  }

  /** Where two names share an address a packet meant for the passed one is dropped once
      the blocked one has been looked up, although no two rules list its name. */
  lemma SharedAddressTakesRule(loaded: seq<LoadedRule>, st: Setting, history: seq<Answer>, p: Packet)
    requires BlocksOneName(loaded) && HandedOn(st, p) && Answer("x", p.daddr) in history
    ensures FateOf(FirstLoaded(loaded, QueryOf(p, Some("y"))), st, p) == Passed
    ensures Acceptable(loaded) && !ListedTwice(Coalesce(LoweredRules(loaded)), "y")
    ensures ChainFate(loaded, st, history, p) == Dropped
  {
    OtherNamePassed(loaded, QueryOf(p, Some("y")));
    TwoNamed(loaded, "block", AnyNetwork, "x", "direct", AnyNetwork, "y");
    var rules := Coalesce(LoweredRules(loaded));
    SharedAddressHit(rules, history, p);
    ChainFateIs(loaded, rules, st, history, p);
  }
}

/** The back end of the local-TUN policy: ingress rules become lines of the nft
    classify chain (internal/localtun/selective_linux.go, nftConfig and
    nftRuleLines). Lines are data here, not text. */
module NftCompiler {
  import opened Options
  import opened ByteStrings
  import opened Prefixes
  import opened Sequences
  import opened IngressPolicy

  // ---- the nft side ---------------------------------------------------------

  datatype L4 = TcpL4 | UdpL4 | OtherL4

  /** `local` is the outcome of the FIB lookup of the destination. */
  datatype RawPacket = Packet(iif: string, local: bool, proto: L4, dport: nat, saddr: Addr, daddr: Addr)

  type Packet = p: RawPacket | p.saddr.family == p.daddr.family
    witness Packet("", false, OtherL4, 0, Addr(V4, seq(32, _ => false)), Addr(V4, seq(32, _ => false)))

  datatype SetName = Bypass(family: Family) | RuleSet(index: nat, family: Family)

  datatype SetDecl = Elements(prefixes: seq<Prefix>) | FilledByDns

  datatype Cond =
    | FibLocal
    | ProtoIn(protos: set<L4>)
    | DportIn(ports: seq<PortRange>)
    | NfProto(family: Family)
    | SaddrIn(family: Family, prefixes: seq<Prefix>)
    | DaddrIn(family: Family, name: SetName)

  datatype Verdict = Return | Drop | MarkReturn | Reject

  datatype Line = Line(ifaces: seq<string>, conds: seq<Cond>, verdict: Verdict)

  /** `guarded` says that the batch itself hooks prerouting to the killswitch. */
  datatype Table = Table(sets: map<SetName, SetDecl>, classify: seq<Line>, killswitch: seq<Line>, guarded: bool)

  /** The addresses ChinaDNS has put in the dynamic set of rule i so far. */
  type DnsSets = (nat, Addr) -> bool

  predicate SetContains(sets: map<SetName, SetDecl>, dns: DnsSets, name: SetName, a: Addr) {
    && name in sets && name.family == a.family
    && match sets[name]
       case Elements(ps) => Covered(ps, a)
       case FilledByDns => name.RuleSet? && dns(name.index, a)
  }

  predicate Holds(c: Cond, sets: map<SetName, SetDecl>, dns: DnsSets, p: Packet) {
    match c
    case FibLocal => p.local
    case ProtoIn(protos) => p.proto in protos
    case DportIn(ports) => p.proto != OtherL4 && PortsAllow(ports, p.dport)
    case NfProto(f) => p.daddr.family == f
    case SaddrIn(f, ps) => p.saddr.family == f && Covered(ps, p.saddr)
    case DaddrIn(f, name) => p.daddr.family == f && SetContains(sets, dns, name, p.daddr)
  }

  predicate LineMatches(l: Line, sets: map<SetName, SetDecl>, dns: DnsSets, p: Packet) {
    p.iif in l.ifaces && forall i :: 0 <= i < |l.conds| ==> Holds(l.conds[i], sets, dns, p)
  }

  /** The verdict of the first line that matches. */
  function FirstHit(lines: seq<Line>, sets: map<SetName, SetDecl>, dns: DnsSets, p: Packet): Option<Verdict> {
    if lines == [] then None
    else if LineMatches(lines[0], sets, dns, p) then Some(lines[0].verdict)
    else FirstHit(lines[1..], sets, dns, p)
  }

  /** What becomes of a packet that prerouting sends through a chain. */
  datatype Fate = Passed | Tunnelled | Dropped | Rejected

  function VerdictFate(v: Option<Verdict>): Fate {
    match v
    case None => Passed
    case Some(Return) => Passed
    case Some(MarkReturn) => Tunnelled
    case Some(Drop) => Dropped
    case Some(Reject) => Rejected
  }

  // ---- the compiler -----------------------------------------------------------

  datatype Config = Config(bypassPrivate: bool, fallbackTag: string, failClosed: bool)

  /** What the chains are compiled for. */
  datatype RawSetting = Setting(ifaces: seq<string>, bypass4: seq<Prefix>, bypass6: seq<Prefix>, fallbackTag: string)

  type Setting = s: RawSetting | AllOf(s.bypass4, V4) && AllOf(s.bypass6, V6)
    witness Setting([], [], [], "")

  predicate AllOf(ps: seq<Prefix>, f: Family) {
    forall i :: 0 <= i < |ps| ==> ps[i].addr.family == f
  }

  /** A prefix given by its leading bytes and its length. */
  datatype Cidr = Cidr(bytes: Bytes, bits: nat)

  function CidrPrefix(f: Family, c: Cidr): (p: Prefix)
    ensures p.addr.family == f
  {
    var bits := BitsOf(c.bytes) + Zeros(Width(f));
    Prefix(Addr(f, bits[..Width(f)]), if c.bits <= Width(f) then c.bits else Width(f))
  }

  function CidrPrefixes(f: Family, cs: seq<Cidr>): (ps: seq<Prefix>)
    ensures AllOf(ps, f) && |ps| == |cs|
  {
    seq(|cs|, i requires 0 <= i < |cs| => CidrPrefix(f, cs[i]))
  }

  function Bypass4(private: bool): seq<Cidr> {
    [Cidr([0], 8), Cidr([127], 8), Cidr([169, 254], 16), Cidr([198, 18], 15), Cidr([224], 4), Cidr([240], 4)]
    + if private then [Cidr([10], 8), Cidr([100, 64], 10), Cidr([172, 16], 12), Cidr([192, 168], 16)] else []
  }

  const BYPASS6 := [Cidr([], 128), Cidr([0, 0, 0, 0, 0, 0, 0, 0, 0, 0, 0, 0, 0, 0, 0, 1], 128),
                    Cidr([0xfe, 0x80], 10), Cidr([0xfc], 7), Cidr([0xff], 8)]

  function SettingOf(cfg: Config, ifaces: seq<string>): Setting {
    Setting(ifaces, CidrPrefixes(V4, Bypass4(cfg.bypassPrivate)), CidrPrefixes(V6, BYPASS6), cfg.fallbackTag)
  }

  function NetworkProtos(n: Network): set<L4> {
    match n
    case Tcp => {TcpL4}
    case Udp => {UdpL4}
    case _ => {TcpL4, UdpL4}
  }

  function ActionVerdict(a: Action, f: Family): Verdict {
    match a
    case Direct => Return
    case Block => Drop
    case Tunnel => if f == V4 then MarkReturn else Reject
  }

  function BaseConds(rule: IngressRule): seq<Cond> {
    [ProtoIn(NetworkProtos(rule.network))] + if rule.ports != [] then [DportIn(rule.ports)] else []
  }

  function FromConds(f: Family, source: seq<Prefix>): seq<Cond> {
    if source != [] then [SaddrIn(f, source)] else []
  }

  /** nftRuleLines. A destination rule emits its IPv4 line only without IPv6
      sources, and its IPv6 line only without IPv4 sources. */
  function RuleLines(rule: IngressRule, ifaces: seq<string>): seq<Line> {
    var base, from4, from6 := BaseConds(rule), FromConds(V4, rule.source4), FromConds(V6, rule.source6);
    var action4, action6 := ActionVerdict(rule.action, V4), ActionVerdict(rule.action, V6);
    if !HasDestination(rule) then
      if rule.source4 == [] && rule.source6 == [] then
        if action4 == action6 then [Line(ifaces, base, action4)]
        else [Line(ifaces, base + [NfProto(V4)], action4), Line(ifaces, base + [NfProto(V6)], action6)]
      else
        (if rule.source4 != [] then [Line(ifaces, base + from4, action4)] else [])
        + (if rule.source6 != [] then [Line(ifaces, base + from6, action6)] else [])
    else
      (if (rule.domains != [] || rule.ipv4 != []) && rule.source6 == []
       then [Line(ifaces, base + from4 + [DaddrIn(V4, RuleSet(rule.index, V4))], action4)] else [])
      + (if (rule.domains != [] || rule.ipv6 != []) && rule.source4 == []
         then [Line(ifaces, base + from6 + [DaddrIn(V6, RuleSet(rule.index, V6))], action6)] else [])
  }

  function GuardLines(ifaces: seq<string>): seq<Line> {
    [Line(ifaces, [FibLocal], Return),
     Line(ifaces, [ProtoIn({TcpL4, UdpL4}), DportIn([PortRange(853, 853)])], Drop),
     Line(ifaces, [DaddrIn(V4, Bypass(V4))], Return),
     Line(ifaces, [DaddrIn(V6, Bypass(V6))], Return)]
  }

  function AnyRule(a: Action): IngressRule {
    IngressRule(0, a, [], [], [], [], [], AnyNetwork, [])
  }

  function FallbackLines(tag: string, ifaces: seq<string>): seq<Line> {
    if tag == "" || tag == "direct" then []
    else if tag == "block" then RuleLines(AnyRule(Block), ifaces)
    else RuleLines(AnyRule(Tunnel), ifaces)
  }

  function AllRuleLines(rules: seq<IngressRule>, ifaces: seq<string>): seq<Line> {
    if rules == [] then [] else
      AllRuleLines(rules[..|rules| - 1], ifaces) + RuleLines(rules[|rules| - 1], ifaces)
  }

  function DeclareRule(sets: map<SetName, SetDecl>, rule: IngressRule): map<SetName, SetDecl> {
    if rule.domains != [] then
      sets[RuleSet(rule.index, V4) := FilledByDns][RuleSet(rule.index, V6) := FilledByDns]
    else
      var with4 := if rule.ipv4 != [] then sets[RuleSet(rule.index, V4) := Elements(rule.ipv4)] else sets;
      if rule.ipv6 != [] then with4[RuleSet(rule.index, V6) := Elements(rule.ipv6)] else with4
  }

  function DeclareSets(rules: seq<IngressRule>, st: Setting): map<SetName, SetDecl> {
    if rules == [] then map[Bypass(V4) := Elements(st.bypass4), Bypass(V6) := Elements(st.bypass6)]
    else DeclareRule(DeclareSets(rules[..|rules| - 1], st), rules[|rules| - 1])
  }

  function Classify(rules: seq<IngressRule>, st: Setting): seq<Line> {
    GuardLines(st.ifaces) + AllRuleLines(rules, st.ifaces) + FallbackLines(st.fallbackTag, st.ifaces)
  }

  function Killswitch(ifaces: seq<string>): seq<Line> {
    GuardLines(ifaces) + [Line(ifaces, [ProtoIn({TcpL4, UdpL4})], Drop)]
  }

  method NftConfig(policy: Policy, ifaces: seq<string>, cfg: Config) returns (t: Table)
    ensures t.sets == DeclareSets(policy.rules, SettingOf(cfg, ifaces))
    ensures t.classify == Classify(policy.rules, SettingOf(cfg, ifaces)) && t.killswitch == Killswitch(ifaces)
    ensures t.guarded == cfg.failClosed
  {
    var st := SettingOf(cfg, ifaces);
    var sets := SetDeclarations(policy.rules, st);
    var lines := ClassifyLines(policy.rules, st);
    t := Table(sets, lines, Killswitch(ifaces), cfg.failClosed);
  }

  method SetDeclarations(rules: seq<IngressRule>, st: Setting) returns (sets: map<SetName, SetDecl>)
    ensures sets == DeclareSets(rules, st)
  {
    sets := map[Bypass(V4) := Elements(st.bypass4), Bypass(V6) := Elements(st.bypass6)];
    for i := 0 to |rules|
      invariant sets == DeclareSets(rules[..i], st)
    {
      TakeNext(rules, i);
      sets := DeclareRule(sets, rules[i]);
    }
    TakeAll(rules);
  }

  method ClassifyLines(rules: seq<IngressRule>, st: Setting) returns (lines: seq<Line>)
    ensures lines == Classify(rules, st)
  {
    var body := [];
    for i := 0 to |rules|
      invariant body == AllRuleLines(rules[..i], st.ifaces)
    {
      TakeNext(rules, i);
      body := body + RuleLines(rules[i], st.ifaces);
    }
    TakeAll(rules);
    lines := GuardLines(st.ifaces) + body + FallbackLines(st.fallbackTag, st.ifaces);
  }

  // ---- what the chain should do -------------------------------------------------

  /** What BuildIngressPolicy guarantees of each rule. */
  predicate WellFormedRule(r: IngressRule) {
    && AllOf(r.ipv4, V4) && AllOf(r.ipv6, V6) && AllOf(r.source4, V4) && AllOf(r.source6, V6)
    && (r.domains == [] || (r.ipv4 == [] && r.ipv6 == []))
  }

  predicate WellFormed(rules: seq<IngressRule>) {
    forall i :: 0 <= i < |rules| ==> WellFormedRule(rules[i]) && rules[i].index == i
  }

  /** A rule applies to a TCP or UDP packet; a domain rule goes by the addresses
      its names resolved to. */
  predicate RuleApplies(r: IngressRule, dns: DnsSets, p: Packet) {
    && p.proto in NetworkProtos(r.network)
    && PortsAllow(r.ports, p.dport)
    && SourceAllows(r, p.saddr)
    && (!HasDestination(r) || Covered(r.ipv4, p.daddr) || Covered(r.ipv6, p.daddr)
         || (r.domains != [] && dns(r.index, p.daddr)))
  }

  function FirstAction(rules: seq<IngressRule>, dns: DnsSets, p: Packet): Option<Action> {
    if rules == [] then None
    else if RuleApplies(rules[0], dns, p) then Some(rules[0].action)
    else FirstAction(rules[1..], dns, p)
  }

  function ActionFate(a: Action, f: Family): Fate {
    match a
    case Direct => Passed
    case Block => Dropped
    case Tunnel => if f == V4 then Tunnelled else Rejected
  }

  predicate Bypassed(st: Setting, a: Addr) {
    Covered(st.bypass4, a) || Covered(st.bypass6, a)
  }

  function FallbackFate(tag: string, f: Family): Fate {
    if tag == "" || tag == "direct" then Passed
    else if tag == "block" then Dropped
    else ActionFate(Tunnel, f)
  }

  /** Router-local and bypassed traffic is left alone, DNS over TLS is dropped,
      then the action of the first rule that applies decides, then the user's
      fallback. */
  function FateOf(action: Option<Action>, st: Setting, p: Packet): Fate {
    if p.iif !in st.ifaces || p.local then Passed
    else if p.proto != OtherL4 && p.dport == 853 then Dropped
    else if Bypassed(st, p.daddr) || p.proto == OtherL4 then Passed
    else match action
      case Some(a) => ActionFate(a, p.daddr.family)
      case None => FallbackFate(st.fallbackTag, p.daddr.family)
  }

  function PolicyFate(rules: seq<IngressRule>, st: Setting, dns: DnsSets, p: Packet): Fate {
    FateOf(FirstAction(rules, dns, p), st, p)
  }

  /** The shape for which nftRuleLines emits no line at all. */
  predicate SplitSources(r: IngressRule) {
    HasDestination(r) && r.source4 != [] && r.source6 != []
  }

  function WithoutSplit(rules: seq<IngressRule>): seq<IngressRule> {
    if rules == [] then []
    else (if SplitSources(rules[0]) then [] else [rules[0]]) + WithoutSplit(rules[1..])
  }

  // ---- chains ---------------------------------------------------------------------

  lemma {:induction false} FirstHitConcat(s: seq<Line>, t: seq<Line>, sets: map<SetName, SetDecl>,
        dns: DnsSets, p: Packet)
    ensures FirstHit(s + t, sets, dns, p) ==
            if FirstHit(s, sets, dns, p).Some? then FirstHit(s, sets, dns, p) else FirstHit(t, sets, dns, p)
  {
    if s == [] {
      assert s + t == t;
    } else {
      assert (s + t)[1..] == s[1..] + t;
      FirstHitConcat(s[1..], t, sets, dns, p);
    }
  }

  predicate AllHold(conds: seq<Cond>, sets: map<SetName, SetDecl>, dns: DnsSets, p: Packet) {
    forall i :: 0 <= i < |conds| ==> Holds(conds[i], sets, dns, p)
  }

  lemma AllHoldConcat(s: seq<Cond>, t: seq<Cond>, sets: map<SetName, SetDecl>, dns: DnsSets, p: Packet)
    ensures AllHold(s + t, sets, dns, p) <==> AllHold(s, sets, dns, p) && AllHold(t, sets, dns, p)
  {
    if AllHold(s + t, sets, dns, p) {
      forall i | 0 <= i < |s| ensures Holds(s[i], sets, dns, p) {
        assert (s + t)[i] == s[i];
      }
      forall i | 0 <= i < |t| ensures Holds(t[i], sets, dns, p) {
        assert (s + t)[|s| + i] == t[i];
      }
    }
  }

  lemma OneHolds(c: Cond, sets: map<SetName, SetDecl>, dns: DnsSets, p: Packet)
    ensures AllHold([c], sets, dns, p) <==> Holds(c, sets, dns, p)
  {
    assert [c][0] == c;
  }

  lemma LineIsConds(l: Line, sets: map<SetName, SetDecl>, dns: DnsSets, p: Packet)
    ensures LineMatches(l, sets, dns, p) <==> p.iif in l.ifaces && AllHold(l.conds, sets, dns, p)
  {}

  lemma TwoLines(a: Line, b: Line, sets: map<SetName, SetDecl>, dns: DnsSets, p: Packet)
    ensures FirstHit([a], sets, dns, p) == if LineMatches(a, sets, dns, p) then Some(a.verdict) else None
    ensures FirstHit([a, b], sets, dns, p) ==
            if LineMatches(a, sets, dns, p) then Some(a.verdict)
            else if LineMatches(b, sets, dns, p) then Some(b.verdict) else None
  {
    assert [a, b][1..] == [b] && [b][1..] == [];
    assert FirstHit([b], sets, dns, p) == if LineMatches(b, sets, dns, p) then Some(b.verdict) else None;
  }

  // ---- sets -------------------------------------------------------------------------

  predicate BypassIn(sets: map<SetName, SetDecl>, st: Setting) {
    && Bypass(V4) in sets && sets[Bypass(V4)] == Elements(st.bypass4)
    && Bypass(V6) in sets && sets[Bypass(V6)] == Elements(st.bypass6)
  }

  lemma {:induction false} BypassDeclared(rules: seq<IngressRule>, st: Setting)
    ensures BypassIn(DeclareSets(rules, st), st)
  {
    if rules != [] {
      BypassDeclared(rules[..|rules| - 1], st);
    }
  }

  /** The declared sets give each rule its own addresses back, which needs every
      index to be used by one rule only. */
  lemma {:induction false} DeclaredSets(rules: seq<IngressRule>, st: Setting, k: nat)
    requires WellFormed(rules) && k < |rules|
    ensures SetsOf(DeclareSets(rules, st), rules[k])
  {
    var init, last := rules[..|rules| - 1], rules[|rules| - 1];
    if k < |init| {
      DeclaredSets(init, st, k);
      DeclareOther(DeclareSets(init, st), rules[k], last);
    }
  }

  lemma DeclareOther(sets: map<SetName, SetDecl>, kept: IngressRule, added: IngressRule)
    requires SetsOf(sets, kept) && kept.index != added.index
    ensures SetsOf(DeclareRule(sets, added), kept)
  {}

  predicate SetsOf(sets: map<SetName, SetDecl>, r: IngressRule) {
    var n4, n6 := RuleSet(r.index, V4), RuleSet(r.index, V6);
    if r.domains != [] then n4 in sets && sets[n4] == FilledByDns && n6 in sets && sets[n6] == FilledByDns
    else
      && (r.ipv4 != [] ==> n4 in sets && sets[n4] == Elements(r.ipv4))
      && (r.ipv6 != [] ==> n6 in sets && sets[n6] == Elements(r.ipv6))
  }

  // ---- one rule --------------------------------------------------------------------

  lemma OtherFamily(ps: seq<Prefix>, f: Family, a: Addr)
    requires AllOf(ps, f) && a.family != f
    ensures !Covered(ps, a)
  {}

  lemma BaseHolds(rule: IngressRule, sets: map<SetName, SetDecl>, dns: DnsSets, p: Packet)
    ensures AllHold(BaseConds(rule), sets, dns, p) <==> BaseApplies(rule, p)
  {
    OneHolds(ProtoIn(NetworkProtos(rule.network)), sets, dns, p);
    if rule.ports != [] {
      OneHolds(DportIn(rule.ports), sets, dns, p);
      AllHoldConcat([ProtoIn(NetworkProtos(rule.network))], [DportIn(rule.ports)], sets, dns, p);
    } else {
      assert [ProtoIn(NetworkProtos(rule.network))] + [] == [ProtoIn(NetworkProtos(rule.network))];
    }
  }

  /** The conditions a line adds to the base ones, for each shape of rule. */
  lemma ExtraHolds(base: seq<Cond>, from: seq<Cond>, extra: seq<Cond>, sets: map<SetName, SetDecl>,
        dns: DnsSets, p: Packet)
    ensures AllHold(base + from + extra, sets, dns, p) <==>
            AllHold(base, sets, dns, p) && AllHold(from, sets, dns, p) && AllHold(extra, sets, dns, p)
  {
    AllHoldConcat(base + from, extra, sets, dns, p);
    AllHoldConcat(base, from, sets, dns, p);
  }

  lemma FromHolds(f: Family, source: seq<Prefix>, sets: map<SetName, SetDecl>, dns: DnsSets, p: Packet)
    ensures AllHold(FromConds(f, source), sets, dns, p) <==>
            source == [] || (p.saddr.family == f && Covered(source, p.saddr))
  {
    if source != [] {
      OneHolds(SaddrIn(f, source), sets, dns, p);
    }
  }

  predicate BaseApplies(rule: IngressRule, p: Packet) {
    p.proto in NetworkProtos(rule.network) && PortsAllow(rule.ports, p.dport)
  }

  /** A line made of the base conditions, a source condition and one more. */
  lemma SourceLine(rule: IngressRule, f: Family, source: seq<Prefix>, extra: seq<Cond>, v: Verdict, ifaces: seq<string>,
                   sets: map<SetName, SetDecl>, dns: DnsSets, p: Packet)
    requires p.iif in ifaces
    ensures LineMatches(Line(ifaces, BaseConds(rule) + FromConds(f, source) + extra, v), sets, dns, p) <==>
            BaseApplies(rule, p) && (source == [] || (p.saddr.family == f && Covered(source, p.saddr)))
              && AllHold(extra, sets, dns, p)
  {
    BaseHolds(rule, sets, dns, p);
    FromHolds(f, source, sets, dns, p);
    ExtraHolds(BaseConds(rule), FromConds(f, source), extra, sets, dns, p);
    LineIsConds(Line(ifaces, BaseConds(rule) + FromConds(f, source) + extra, v), sets, dns, p);
  }

  lemma OpenRule(rule: IngressRule, ifaces: seq<string>, sets: map<SetName, SetDecl>, dns: DnsSets, p: Packet)
    requires !HasDestination(rule) && rule.source4 == [] && rule.source6 == [] && p.iif in ifaces
    ensures FirstHit(RuleLines(rule, ifaces), sets, dns, p) ==
            if BaseApplies(rule, p) then Some(ActionVerdict(rule.action, p.daddr.family)) else None
  {
    var base := BaseConds(rule);
    var action4, action6 := ActionVerdict(rule.action, V4), ActionVerdict(rule.action, V6);
    SourceLine(rule, V4, [], [], action4, ifaces, sets, dns, p);
    SourceLine(rule, V4, [], [NfProto(V4)], action4, ifaces, sets, dns, p);
    SourceLine(rule, V6, [], [NfProto(V6)], action6, ifaces, sets, dns, p);
    OneHolds(NfProto(V4), sets, dns, p);
    OneHolds(NfProto(V6), sets, dns, p);
    assert base + [] + [] == base && base + [] + [NfProto(V4)] == base + [NfProto(V4)]
      && base + [] + [NfProto(V6)] == base + [NfProto(V6)];
    var both := Line(ifaces, base, action4);
    var l4, l6 := Line(ifaces, base + [NfProto(V4)], action4), Line(ifaces, base + [NfProto(V6)], action6);
    TwoLines(both, both, sets, dns, p);
    TwoLines(l4, l6, sets, dns, p);
  }

  lemma SourcedRule(rule: IngressRule, ifaces: seq<string>, sets: map<SetName, SetDecl>, dns: DnsSets, p: Packet)
    requires WellFormedRule(rule) && !HasDestination(rule) && (rule.source4 != [] || rule.source6 != [])
             && p.iif in ifaces
    ensures FirstHit(RuleLines(rule, ifaces), sets, dns, p) ==
            if BaseApplies(rule, p) && SourceAllows(rule, p.saddr)
              then Some(ActionVerdict(rule.action, p.daddr.family)) else None
  {
    var base := BaseConds(rule);
    var action4, action6 := ActionVerdict(rule.action, V4), ActionVerdict(rule.action, V6);
    var from4, from6 := FromConds(V4, rule.source4), FromConds(V6, rule.source6);
    SourceLine(rule, V4, rule.source4, [], action4, ifaces, sets, dns, p);
    SourceLine(rule, V6, rule.source6, [], action6, ifaces, sets, dns, p);
    assert base + from4 + [] == base + from4 && base + from6 + [] == base + from6;
    SourceFamilies(rule, p);
    var l4, l6 := Line(ifaces, base + from4, action4), Line(ifaces, base + from6, action6);
    TwoLines(l4, l6, sets, dns, p);
    TwoLines(l6, l4, sets, dns, p);
    assert [l4] + [l6] == [l4, l6] && [] + [l6] == [l6] && [l4] + [] == [l4];
  }

  /** Only the sources of the packet's own family can contain it. */
  lemma SourceFamilies(rule: IngressRule, p: Packet)
    requires WellFormedRule(rule)
    ensures p.saddr.family == V4 ==> !Covered(rule.source6, p.saddr) && !Covered(rule.ipv6, p.daddr)
    ensures p.saddr.family == V6 ==> !Covered(rule.source4, p.saddr) && !Covered(rule.ipv4, p.daddr)
  {}

  lemma NoDestinationRule(rule: IngressRule, ifaces: seq<string>, sets: map<SetName, SetDecl>, dns: DnsSets, p: Packet)
    requires WellFormedRule(rule) && !HasDestination(rule) && p.iif in ifaces
    ensures FirstHit(RuleLines(rule, ifaces), sets, dns, p) ==
            if RuleApplies(rule, dns, p) then Some(ActionVerdict(rule.action, p.daddr.family)) else None
  {
    if rule.source4 == [] && rule.source6 == [] {
      OpenRule(rule, ifaces, sets, dns, p);
    } else {
      SourcedRule(rule, ifaces, sets, dns, p);
    }
  }

  lemma DestinationSet(rule: IngressRule, f: Family, sets: map<SetName, SetDecl>, dns: DnsSets, p: Packet)
    requires WellFormedRule(rule) && SetsOf(sets, rule) && HasDestination(rule)
    requires rule.domains != [] || (if f == V4 then rule.ipv4 else rule.ipv6) != []
    ensures AllHold([DaddrIn(f, RuleSet(rule.index, f))], sets, dns, p) <==>
            p.daddr.family == f && (Covered(if f == V4 then rule.ipv4 else rule.ipv6, p.daddr)
              || (rule.domains != [] && dns(rule.index, p.daddr)))
  {
    OneHolds(DaddrIn(f, RuleSet(rule.index, f)), sets, dns, p);
  }

  /** What a destination rule asks of packets of one family. */
  predicate FamilyApplies(rule: IngressRule, f: Family, dns: DnsSets, p: Packet) {
    var source, dest := if f == V4 then rule.source4 else rule.source6, if f == V4 then rule.ipv4 else rule.ipv6;
    && p.daddr.family == f && BaseApplies(rule, p)
    && (source == [] || Covered(source, p.saddr))
    && (Covered(dest, p.daddr) || (rule.domains != [] && dns(rule.index, p.daddr)))
  }

  lemma DestinationLine(rule: IngressRule, f: Family, v: Verdict, ifaces: seq<string>, sets: map<SetName, SetDecl>,
        dns: DnsSets, p: Packet)
    requires WellFormedRule(rule) && HasDestination(rule) && SetsOf(sets, rule) && p.iif in ifaces
    requires rule.domains != [] || (if f == V4 then rule.ipv4 else rule.ipv6) != []
    ensures var from := FromConds(f, if f == V4 then rule.source4 else rule.source6);
            LineMatches(Line(ifaces, BaseConds(rule) + from + [DaddrIn(f, RuleSet(rule.index, f))], v),
              sets, dns, p) <==>
            FamilyApplies(rule, f, dns, p)
  {
    var source := if f == V4 then rule.source4 else rule.source6;
    SourceLine(rule, f, source, [DaddrIn(f, RuleSet(rule.index, f))], v, ifaces, sets, dns, p);
    DestinationSet(rule, f, sets, dns, p);
  }

  /** Without sources of both families, a rule applies through its own family. */
  lemma AppliesByFamily(rule: IngressRule, dns: DnsSets, p: Packet)
    requires WellFormedRule(rule) && HasDestination(rule) && !SplitSources(rule)
    ensures RuleApplies(rule, dns, p) <==>
            FamilyApplies(rule, p.daddr.family, dns, p)
              && (if p.daddr.family == V4 then rule.source6 else rule.source4) == []
  {}

  lemma DestinationRule(rule: IngressRule, ifaces: seq<string>, sets: map<SetName, SetDecl>, dns: DnsSets, p: Packet)
    requires WellFormedRule(rule) && HasDestination(rule) && SetsOf(sets, rule) && p.iif in ifaces
    ensures FirstHit(RuleLines(rule, ifaces), sets, dns, p) ==
            if RuleApplies(rule, dns, p) && !SplitSources(rule)
              then Some(ActionVerdict(rule.action, p.daddr.family)) else None
  {
    var to4, to6 := [DaddrIn(V4, RuleSet(rule.index, V4))], [DaddrIn(V6, RuleSet(rule.index, V6))];
    var l4 := Line(ifaces, BaseConds(rule) + FromConds(V4, rule.source4) + to4, ActionVerdict(rule.action, V4));
    var l6 := Line(ifaces, BaseConds(rule) + FromConds(V6, rule.source6) + to6, ActionVerdict(rule.action, V6));
    var emit4 := (rule.domains != [] || rule.ipv4 != []) && rule.source6 == [];
    var emit6 := (rule.domains != [] || rule.ipv6 != []) && rule.source4 == [];
    assert RuleLines(rule, ifaces) == (if emit4 then [l4] else []) + (if emit6 then [l6] else []);
    if emit4 { DestinationLine(rule, V4, l4.verdict, ifaces, sets, dns, p); }
    if emit6 { DestinationLine(rule, V6, l6.verdict, ifaces, sets, dns, p); }
    TwoLines(l4, l6, sets, dns, p);
    TwoLines(l6, l4, sets, dns, p);
    assert [l4] + [l6] == [l4, l6] && [] + [l6] == [l6] && [l4] + [] == [l4];
    if !SplitSources(rule) {
      AppliesByFamily(rule, dns, p);
    }
  }

  lemma RuleHit(rule: IngressRule, ifaces: seq<string>, sets: map<SetName, SetDecl>, dns: DnsSets, p: Packet)
    requires WellFormedRule(rule) && SetsOf(sets, rule) && p.iif in ifaces
    ensures FirstHit(RuleLines(rule, ifaces), sets, dns, p) ==
            if RuleApplies(rule, dns, p) && !SplitSources(rule)
              then Some(ActionVerdict(rule.action, p.daddr.family)) else None
  {
    if HasDestination(rule) {
      DestinationRule(rule, ifaces, sets, dns, p);
    } else {
      NoDestinationRule(rule, ifaces, sets, dns, p);
    }
  }

  /** The lines of a rule fire on exactly the packets the rule applies to. */
  ghost predicate LinesFaithful(rule: IngressRule, ifaces: seq<string>, sets: map<SetName, SetDecl>) {
    forall dns: DnsSets, p: Packet | p.iif in ifaces ::
      FirstHit(RuleLines(rule, ifaces), sets, dns, p).Some? <==> RuleApplies(rule, dns, p)
  }

  /** A packet that the rule applies to, for rules with a destination. */
  lemma DestinationWitness(rule: IngressRule, iif: string) returns (dns: DnsSets, p: Packet)
    requires WellFormedRule(rule) && SplitSources(rule)
    ensures p.iif == iif && RuleApplies(rule, dns, p)
  {
    dns := (_, _) => true;
    var proto := if rule.network.Udp? then UdpL4 else TcpL4;
    var port := if rule.ports == [] then 1 else rule.ports[0].lo;
    if rule.ipv6 != [] {
      p := Packet(iif, false, proto, port, rule.source6[0].addr, rule.ipv6[0].addr);
      assert Contains(rule.source6[0], p.saddr) && Contains(rule.ipv6[0], p.daddr);
    } else {
      var daddr := if rule.ipv4 != [] then rule.ipv4[0].addr else rule.source4[0].addr;
      p := Packet(iif, false, proto, port, rule.source4[0].addr, daddr);
      assert Contains(rule.source4[0], p.saddr);
      if rule.ipv4 != [] { assert Contains(rule.ipv4[0], p.daddr); }
    }
  }

  /** Exactly when a single rule compiles faithfully: unless it has a destination
      and sources of both families. */
  lemma RuleFaithfulIff(rule: IngressRule, ifaces: seq<string>, sets: map<SetName, SetDecl>)
    requires WellFormedRule(rule) && SetsOf(sets, rule) && ifaces != []
    ensures LinesFaithful(rule, ifaces, sets) <==> !SplitSources(rule)
  {
    forall dns: DnsSets, p: Packet | p.iif in ifaces
      ensures FirstHit(RuleLines(rule, ifaces), sets, dns, p).Some? <==>
              RuleApplies(rule, dns, p) && !SplitSources(rule)
    {
      RuleHit(rule, ifaces, sets, dns, p);
    }
    if SplitSources(rule) {
      var dns, p := DestinationWitness(rule, ifaces[0]);
      assert RuleApplies(rule, dns, p) && FirstHit(RuleLines(rule, ifaces), sets, dns, p).None?;
    }
  }

  // ---- the whole chain --------------------------------------------------------------

  /** What the guards answer, on the given interfaces. */
  function GuardVerdict(st: Setting, p: Packet): Option<Verdict> {
    if p.local then Some(Return)
    else if p.proto != OtherL4 && p.dport == 853 then Some(Drop)
    else if Bypassed(st, p.daddr) then Some(Return) else None
  }

  function RulesVerdict(rules: seq<IngressRule>, dns: DnsSets, p: Packet): Option<Verdict> {
    match FirstAction(rules, dns, p)
    case Some(a) => Some(ActionVerdict(a, p.daddr.family))
    case None => None
  }

  lemma {:induction false} FirstActionConcat(s: seq<IngressRule>, t: seq<IngressRule>, dns: DnsSets, p: Packet)
    ensures FirstAction(s + t, dns, p) == if FirstAction(s, dns, p).Some? then FirstAction(s, dns, p)
            else FirstAction(t, dns, p)
  {
    if s == [] {
      assert s + t == t;
    } else {
      assert (s + t)[1..] == s[1..] + t;
      FirstActionConcat(s[1..], t, dns, p);
    }
  }

  lemma {:induction false} WithoutSplitConcat(s: seq<IngressRule>, t: seq<IngressRule>)
    ensures WithoutSplit(s + t) == WithoutSplit(s) + WithoutSplit(t)
  {
    if s == [] {
      assert s + t == t;
    } else {
      assert (s + t)[1..] == s[1..] + t;
      WithoutSplitConcat(s[1..], t);
    }
  }

  lemma {:induction false} RulesHit(rules: seq<IngressRule>, ifaces: seq<string>, sets: map<SetName, SetDecl>,
        dns: DnsSets, p: Packet)
    requires forall i :: 0 <= i < |rules| ==> WellFormedRule(rules[i]) && SetsOf(sets, rules[i])
    requires p.iif in ifaces
    ensures FirstHit(AllRuleLines(rules, ifaces), sets, dns, p) == RulesVerdict(WithoutSplit(rules), dns, p)
  {
    if rules != [] {
      var init, last := rules[..|rules| - 1], rules[|rules| - 1];
      RulesHit(init, ifaces, sets, dns, p);
      RuleHit(last, ifaces, sets, dns, p);
      FirstHitConcat(AllRuleLines(init, ifaces), RuleLines(last, ifaces), sets, dns, p);
      SplitLast(rules);
      WithoutSplitConcat(init, [last]);
      assert WithoutSplit([last]) == if SplitSources(last) then [] else [last];
      FirstActionConcat(WithoutSplit(init), WithoutSplit([last]), dns, p);
    }
  }

  lemma DotHit(ifaces: seq<string>, sets: map<SetName, SetDecl>, dns: DnsSets, p: Packet)
    requires p.iif in ifaces
    ensures LineMatches(Line(ifaces, [ProtoIn({TcpL4, UdpL4}), DportIn([PortRange(853, 853)])], Drop),
            sets, dns, p) <==>
            p.proto != OtherL4 && p.dport == 853
  {
    var dot: seq<PortRange> := [PortRange(853, 853)];
    OneHolds(ProtoIn({TcpL4, UdpL4}), sets, dns, p);
    OneHolds(DportIn(dot), sets, dns, p);
    assert [ProtoIn({TcpL4, UdpL4}), DportIn(dot)] == [ProtoIn({TcpL4, UdpL4})] + [DportIn(dot)];
    AllHoldConcat([ProtoIn({TcpL4, UdpL4})], [DportIn(dot)], sets, dns, p);
    assert dot[0] == PortRange(853, 853);
  }

  lemma GuardHit(st: Setting, sets: map<SetName, SetDecl>, dns: DnsSets, p: Packet)
    requires BypassIn(sets, st) && p.iif in st.ifaces
    ensures FirstHit(GuardLines(st.ifaces), sets, dns, p) == GuardVerdict(st, p)
  {
    var g := GuardLines(st.ifaces);
    LineIsConds(g[0], sets, dns, p);
    LineIsConds(g[2], sets, dns, p);
    LineIsConds(g[3], sets, dns, p);
    OneHolds(FibLocal, sets, dns, p);
    DotHit(st.ifaces, sets, dns, p);
    OneHolds(DaddrIn(V4, Bypass(V4)), sets, dns, p);
    OneHolds(DaddrIn(V6, Bypass(V6)), sets, dns, p);
    if p.daddr.family == V4 {
      OtherFamily(st.bypass6, V6, p.daddr);
    } else {
      OtherFamily(st.bypass4, V4, p.daddr);
    }
    TwoLines(g[0], g[1], sets, dns, p);
    TwoLines(g[2], g[3], sets, dns, p);
    assert g == [g[0], g[1]] + [g[2], g[3]];
    FirstHitConcat([g[0], g[1]], [g[2], g[3]], sets, dns, p);
  }

  lemma {:induction false} OffInterface(lines: seq<Line>, ifaces: seq<string>, sets: map<SetName, SetDecl>,
        dns: DnsSets, p: Packet)
    requires p.iif !in ifaces && forall i :: 0 <= i < |lines| ==> lines[i].ifaces == ifaces
    ensures FirstHit(lines, sets, dns, p).None?
  {
    if lines != [] {
      OffInterface(lines[1..], ifaces, sets, dns, p);
    }
  }

  lemma {:induction false} RuleLinesInterfaces(rules: seq<IngressRule>, ifaces: seq<string>)
    ensures forall i :: 0 <= i < |AllRuleLines(rules, ifaces)| ==> AllRuleLines(rules, ifaces)[i].ifaces == ifaces
  {
    if rules != [] {
      RuleLinesInterfaces(rules[..|rules| - 1], ifaces);
      OneRuleInterfaces(rules[|rules| - 1], ifaces);
    }
  }

  lemma OneRuleInterfaces(rule: IngressRule, ifaces: seq<string>)
    ensures forall i :: 0 <= i < |RuleLines(rule, ifaces)| ==> RuleLines(rule, ifaces)[i].ifaces == ifaces
  {}

  lemma ClassifyInterfaces(rules: seq<IngressRule>, st: Setting)
    ensures forall i :: 0 <= i < |Classify(rules, st)| ==> Classify(rules, st)[i].ifaces == st.ifaces
  {
    RuleLinesInterfaces(rules, st.ifaces);
    OneRuleInterfaces(AnyRule(Block), st.ifaces);
    OneRuleInterfaces(AnyRule(Tunnel), st.ifaces);
  }

  lemma FallbackHit(tag: string, ifaces: seq<string>, sets: map<SetName, SetDecl>, dns: DnsSets, p: Packet)
    requires p.iif in ifaces
    ensures VerdictFate(FirstHit(FallbackLines(tag, ifaces), sets, dns, p)) ==
            if p.proto == OtherL4 then Passed else FallbackFate(tag, p.daddr.family)
  {
    NoDestinationRule(AnyRule(Block), ifaces, sets, dns, p);
    NoDestinationRule(AnyRule(Tunnel), ifaces, sets, dns, p);
  }

  lemma {:induction false} OtherProtocolsFree(rules: seq<IngressRule>, dns: DnsSets, p: Packet)
    requires p.proto == OtherL4
    ensures FirstAction(rules, dns, p).None?
  {
    if rules != [] {
      OtherProtocolsFree(rules[1..], dns, p);
    }
  }

  /** For every packet and every well-formed policy, the emitted classify chain
      gives the verdict of first-match over the rules that were not dropped, with
      the guards before them and the fallback after them. */
  lemma ClassifyMeaning(rules: seq<IngressRule>, st: Setting, dns: DnsSets, p: Packet)
    requires WellFormed(rules)
    ensures VerdictFate(FirstHit(Classify(rules, st), DeclareSets(rules, st), dns, p)) ==
            PolicyFate(WithoutSplit(rules), st, dns, p)
  {
    var sets := DeclareSets(rules, st);
    if p.iif in st.ifaces {
      ClassifyOnInterface(rules, st, sets, dns, p);
    } else {
      ClassifyInterfaces(rules, st);
      OffInterface(Classify(rules, st), st.ifaces, sets, dns, p);
    }
  }

  lemma FateOfBlocks(rules: seq<IngressRule>, st: Setting, dns: DnsSets, p: Packet, fallback: Option<Verdict>)
    requires p.iif in st.ifaces
    requires VerdictFate(fallback) == if p.proto == OtherL4 then Passed
             else FallbackFate(st.fallbackTag, p.daddr.family)
    ensures VerdictFate(FirstOf(GuardVerdict(st, p), RulesVerdict(rules, dns, p), fallback)) ==
            PolicyFate(rules, st, dns, p)
  {
    if p.proto == OtherL4 {
      OtherProtocolsFree(rules, dns, p);
    }
  }

  function FirstOf(a: Option<Verdict>, b: Option<Verdict>, c: Option<Verdict>): Option<Verdict> {
    if a.Some? then a else if b.Some? then b else c
  }

  lemma ClassifyOnInterface(rules: seq<IngressRule>, st: Setting, sets: map<SetName, SetDecl>, dns: DnsSets, p: Packet)
    requires WellFormed(rules) && sets == DeclareSets(rules, st) && p.iif in st.ifaces
    ensures VerdictFate(FirstHit(Classify(rules, st), sets, dns, p)) == PolicyFate(WithoutSplit(rules), st, dns, p)
  {
    var guards, lines, fallback := GuardLines(st.ifaces), AllRuleLines(rules, st.ifaces),
      FallbackLines(st.fallbackTag, st.ifaces);
    assert FirstHit(guards, sets, dns, p) == GuardVerdict(st, p) by {
      BypassDeclared(rules, st);
      GuardHit(st, sets, dns, p);
    }
    assert FirstHit(lines, sets, dns, p) == RulesVerdict(WithoutSplit(rules), dns, p) by {
      AllDeclared(rules, st, sets);
      RulesHit(rules, st.ifaces, sets, dns, p);
    }
    FallbackHit(st.fallbackTag, st.ifaces, sets, dns, p);
    ThreeBlocks(guards, lines, fallback, sets, dns, p);
    FateOfBlocks(WithoutSplit(rules), st, dns, p, FirstHit(fallback, sets, dns, p));
  }

  lemma AllDeclared(rules: seq<IngressRule>, st: Setting, sets: map<SetName, SetDecl>)
    requires WellFormed(rules) && sets == DeclareSets(rules, st)
    ensures forall k :: 0 <= k < |rules| ==> SetsOf(sets, rules[k])
  {
    forall k | 0 <= k < |rules| ensures SetsOf(sets, rules[k]) {
      DeclaredSets(rules, st, k);
    }
  }

  lemma ThreeBlocks(a: seq<Line>, b: seq<Line>, c: seq<Line>, sets: map<SetName, SetDecl>, dns: DnsSets, p: Packet)
    ensures FirstHit(a + b + c, sets, dns, p) ==
            FirstOf(FirstHit(a, sets, dns, p), FirstHit(b, sets, dns, p), FirstHit(c, sets, dns, p))
  {
    FirstHitConcat(a + b, c, sets, dns, p);
    FirstHitConcat(a, b, sets, dns, p);
  }

  lemma {:induction false} NothingSplit(rules: seq<IngressRule>)
    requires forall i :: 0 <= i < |rules| ==> !SplitSources(rules[i])
    ensures WithoutSplit(rules) == rules
  {
    if rules != [] {
      NothingSplit(rules[1..]);
    }
  }

  /** The compiler is correct for policies without such a rule. */
  lemma CompilerCorrect(rules: seq<IngressRule>, st: Setting, dns: DnsSets, p: Packet)
    requires WellFormed(rules) && forall i :: 0 <= i < |rules| ==> !SplitSources(rules[i])
    ensures VerdictFate(FirstHit(Classify(rules, st), DeclareSets(rules, st), dns, p)) == PolicyFate(rules, st, dns, p)
  {
    NothingSplit(rules);
    ClassifyMeaning(rules, st, dns, p);
  }

  /** The killswitch passes nothing that the policy would tunnel, drop or reject,
      and lets no TCP or UDP packet past the guards. */
  lemma KillswitchMeaning(rules: seq<IngressRule>, st: Setting, dns: DnsSets, p: Packet)
    ensures var fate := VerdictFate(FirstHit(Killswitch(st.ifaces), DeclareSets(rules, st), dns, p));
            && (PolicyFate(rules, st, dns, p) != Passed ==> fate == Dropped)
            && (fate == Passed <==>
                p.iif !in st.ifaces || p.local || p.proto == OtherL4 || (Bypassed(st, p.daddr) && p.dport != 853))
  {
    var sets := DeclareSets(rules, st);
    var l := Line(st.ifaces, [ProtoIn({TcpL4, UdpL4})], Drop);
    if p.iif in st.ifaces {
      BypassDeclared(rules, st);
      GuardHit(st, sets, dns, p);
      OneHolds(ProtoIn({TcpL4, UdpL4}), sets, dns, p);
      LineIsConds(l, sets, dns, p);
      TwoLines(l, l, sets, dns, p);
      FirstHitConcat(GuardLines(st.ifaces), [l], sets, dns, p);
    } else {
      OffInterface(Killswitch(st.ifaces), st.ifaces, sets, dns, p);
    }
  }

  // ---- the front end meets the back end ------------------------------------------------

  lemma NormalFormFamily(values: seq<Prefix>, f: Family)
    requires AllOf(values, f)
    ensures AllOf(NormalForm(values), f)
  {
    if |values| >= 2 {
      NormalFormIsMaximal(values);
      forall i | 0 <= i < |NormalForm(values)| ensures NormalForm(values)[i].addr.family == f {
        assert Maximal(values, NormalForm(values)[i]);
        var k :| 0 <= k < |values| && MaskedAll(values)[k] == NormalForm(values)[i];
      }
    }
  }

  lemma {:induction false} TokensFamily(tokens: seq<Token>)
    requires AddTokens(tokens).Some?
    ensures AllOf(AddTokens(tokens).value.ipv4, V4) && AllOf(AddTokens(tokens).value.ipv6, V6)
  {
    if tokens != [] {
      TokensFamily(tokens[..|tokens| - 1]);
      if tokens[|tokens| - 1].Addrs? {
        var ps := tokens[|tokens| - 1].prefixes;
        assert forall i :: 0 <= i < |OfFamily(ps, V4)| ==> OfFamily(ps, V4)[i] in OfFamily(ps, V4);
        assert forall i :: 0 <= i < |OfFamily(ps, V6)| ==> OfFamily(ps, V6)[i] in OfFamily(ps, V6);
      }
    }
  }

  lemma LowerWellFormed(l: LoadedRule, index: nat)
    requires Lowerable(l)
    ensures WellFormedRule(Lower(l, index))
  {
    var d, ps := AddTokens(l.tokens).value, SourcePrefixes(l.sources);
    TokensFamily(l.tokens);
    NormalFormFamily(d.ipv4, V4);
    NormalFormFamily(d.ipv6, V6);
    assert forall f, i :: 0 <= i < |OfFamily(ps, f)| ==> OfFamily(ps, f)[i] in OfFamily(ps, f);
    NormalFormFamily(OfFamily(ps, V4), V4);
    NormalFormFamily(OfFamily(ps, V6), V6);
  }

  lemma {:induction false} CoalesceWellFormed(rules: seq<IngressRule>)
    requires forall i :: 0 <= i < |rules| ==> WellFormedRule(rules[i])
    ensures WellFormed(Coalesce(rules))
  {
    CoalesceShape(rules);
    if rules != [] {
      CoalesceWellFormed(rules[..|rules| - 1]);
    }
  }

  lemma {:induction false} LoweredWellFormed(loaded: seq<LoadedRule>)
    requires AllLowerable(loaded)
    ensures forall i :: 0 <= i < |LoweredRules(loaded)| ==> WellFormedRule(LoweredRules(loaded)[i])
  {
    if loaded != [] {
      LoweredWellFormed(loaded[..|loaded| - 1]);
      if loaded[|loaded| - 1].applies {
        LowerWellFormed(loaded[|loaded| - 1], 0);
      }
    }
  }

  /** A policy that the front end accepts is well formed, and its chain gives the fates of
      first-match over those of its rules that emit lines. */
  lemma AcceptedPoliciesCompile(loaded: seq<LoadedRule>, st: Setting, dns: DnsSets, p: Packet)
    requires Acceptable(loaded)
    ensures var rules := Coalesce(LoweredRules(loaded));
            && WellFormed(rules)
            && VerdictFate(FirstHit(Classify(rules, st), DeclareSets(rules, st), dns, p)) ==
               PolicyFate(WithoutSplit(rules), st, dns, p)
  {
    LoweredWellFormed(loaded);
    CoalesceWellFormed(LoweredRules(loaded));
    ClassifyMeaning(Coalesce(LoweredRules(loaded)), st, dns, p);
  }
}

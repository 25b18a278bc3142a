/** Rule dispatch (node/dispatcher.go, node/rules.go): the first rule that matches a
    request decides; if none does, the host may be resolved and the rules tried
    again on its addresses. */
module Dispatch {
  import opened DomainNames
  import opened Options
  import opened Prefixes
  import opened Sequences

  // ---- domain matchers -----------------------------------------------------------------

  predicate Occurs(h: string, s: string) { exists i :: 0 <= i <= |h| && s <= h[i..] }

  /** The form that builds no new string. */
  predicate SuffixMatch(h: string, s: string) {
    if h == s then true
    else if |h| < |s| + 1 then false
    else if h[|h| - |s| - 1] != '.' then false
    else h[|h| - |s|..] == s
  }

  lemma SuffixMatchIsUnder(h: string, s: string)
    ensures SuffixMatch(h, s) <==> IsUnder(h, s)
  {}

  datatype Matcher = Full(s: string) | Suffix(s: string) | Keyword(s: string) | Regex(pattern: string)

  /** Library behaviour: case folding, regular expressions, and reading and writing
      addresses as text. */
  datatype Library = Library(lower: string -> string, regex: (string, string) -> bool, parse: string -> Option<Addr>,
    format: Addr -> string)

  predicate MatcherHits(lib: Library, m: Matcher, host: string) {
    match m
    case Full(s) => host == s
    case Suffix(s) => SuffixMatch(host, s)
    case Keyword(s) => Occurs(host, s)
    case Regex(p) => lib.regex(p, host)
  }

  // ---- rules ---------------------------------------------------------------------------

  datatype PortRange = PortRange(lo: int, hi: int)

  datatype Request = Request(network: string, inbound: string, user: string, port: int,
    source: Option<Addr>, host: string)

  datatype Rule = Rule(
    network: string, inbounds: set<string>, users: set<string>, ports: seq<PortRange>,
    sources: seq<Prefix>, domains: seq<Matcher>, cidrs: seq<Prefix>, tag: string)

  predicate NetworkMatches(spec: string, network: string) {
    spec == "" || spec == network || (Occurs(spec, ",") && Occurs(spec, network))
  }

  predicate PortCovered(port: int, ranges: seq<PortRange>) {
    exists i :: 0 <= i < |ranges| && ranges[i].lo <= port <= ranges[i].hi
  }

  predicate DomainHit(lib: Library, domains: seq<Matcher>, host: string) {
    exists i :: 0 <= i < |domains| && MatcherHits(lib, domains[i], host)
  }

  /** Every category that is present admits the request. */
  predicate Matches(lib: Library, r: Rule, req: Request) {
    && NetworkMatches(r.network, req.network)
    && (r.inbounds == {} || req.inbound in r.inbounds)
    && (r.users == {} || req.user in r.users)
    && (r.ports == [] || PortCovered(req.port, r.ports))
    && (r.sources == [] || (req.source.Some? && Covered(r.sources, req.source.value)))
    && (r.domains == [] || DomainHit(lib, r.domains, WithoutLast(lib.lower(req.host), '.')))
    && (r.cidrs == [] || (lib.parse(req.host).Some? && Covered(r.cidrs, lib.parse(req.host).value)))
  }

  method PortInRanges(port: int, ranges: seq<PortRange>) returns (hit: bool)
    ensures hit == PortCovered(port, ranges)
  {
    for i := 0 to |ranges|
      invariant forall k :: 0 <= k < i ==> !(ranges[k].lo <= port <= ranges[k].hi)
    {
      if port >= ranges[i].lo && port <= ranges[i].hi {
        return true;
      }
    }
    return false;
  }

  method CidrsContain(cidrs: seq<Prefix>, a: Addr) returns (hit: bool)
    ensures hit == Covered(cidrs, a)
  {
    for i := 0 to |cidrs|
      invariant forall k :: 0 <= k < i ==> !Contains(cidrs[k], a)
    {
      if Contains(cidrs[i], a) {
        return true;
      }
    }
    return false;
  }

  method SomeDomainHits(lib: Library, domains: seq<Matcher>, host: string) returns (hit: bool)
    ensures hit == DomainHit(lib, domains, host)
  {
    for i := 0 to |domains|
      invariant forall k :: 0 <= k < i ==> !MatcherHits(lib, domains[k], host)
    {
      if MatcherHits(lib, domains[i], host) {
        return true;
      }
    }
    return false;
  }

  /** CompiledRule.Match. */
  method Match(lib: Library, r: Rule, req: Request) returns (ok: bool)
    ensures ok == Matches(lib, r, req)
  {
    if r.network != "" && !NetworkMatches(r.network, req.network) {
      return false;
    }
    if |r.inbounds| > 0 && req.inbound !in r.inbounds {
      return false;
    }
    if |r.users| > 0 && req.user !in r.users {
      return false;
    }
    if |r.ports| > 0 {
      var hit := PortInRanges(req.port, r.ports);
      if !hit {
        return false;
      }
    }
    if |r.sources| > 0 {
      if req.source.None? {
        return false;
      }
      var hit := CidrsContain(r.sources, req.source.value);
      if !hit {
        return false;
      }
    }
    if |r.domains| > 0 {
      var hit := SomeDomainHits(lib, r.domains, WithoutLast(lib.lower(req.host), '.'));
      if !hit {
        return false;
      }
    }
    if |r.cidrs| > 0 {
      var a := lib.parse(req.host);
      if a.None? {
        return false;
      }
      var hit := CidrsContain(r.cidrs, a.value);
      if !hit {
        return false;
      }
    }
    return true;
  }

  // ---- resolution ---------------------------------------------------------------------------

  function OnAddress(lib: Library, req: Request, a: Addr): Request { req.(host := lib.format(a)) }

  predicate MatchesSome(lib: Library, r: Rule, req: Request, addrs: seq<Addr>) {
    exists k :: 0 <= k < |addrs| && Matches(lib, r, OnAddress(lib, req, addrs[k]))
  }

  /** The position of the first rule that matches the request as it stands. */
  predicate FirstDirect(lib: Library, rules: seq<Rule>, req: Request, i: nat) {
    i < |rules| && Matches(lib, rules[i], req) && forall j :: 0 <= j < i ==> !Matches(lib, rules[j], req)
  }

  /** The position of the first rule that matches any of the addresses. */
  predicate FirstOnSome(lib: Library, rules: seq<Rule>, req: Request, addrs: seq<Addr>, i: nat) {
    i < |rules| && MatchesSome(lib, rules[i], req, addrs) && forall j :: 0 <= j < i ==>
      !MatchesSome(lib, rules[j], req, addrs)
  }

  predicate NoneDirect(lib: Library, rules: seq<Rule>, req: Request) {
    forall j :: 0 <= j < |rules| ==> !Matches(lib, rules[j], req)
  }

  predicate NoneOnSome(lib: Library, rules: seq<Rule>, req: Request, addrs: seq<Addr>) {
    forall j :: 0 <= j < |rules| ==> !MatchesSome(lib, rules[j], req, addrs)
  }

  /** What the answer of a resolution must be: the first direct match; failing any,
      and only if the strategy resolves, the first match on some address. */
  predicate IsAnswer(lib: Library, rules: seq<Rule>, req: Request, resolves: bool, addrs: seq<Addr>,
        answer: Option<nat>) {
    match answer
    case Some(i) =>
      || FirstDirect(lib, rules, req, i)
      || (resolves && NoneDirect(lib, rules, req) && FirstOnSome(lib, rules, req, addrs, i))
    case None => NoneDirect(lib, rules, req) && (!resolves || NoneOnSome(lib, rules, req, addrs))
  }

  /** ResolveRule: direct matches first, then rules in priority order over the
      addresses in answer order. */
  method ResolveRule(lib: Library, rules: seq<Rule>, req: Request, resolves: bool, addrs: seq<Addr>)
        returns (answer: Option<nat>)
    ensures IsAnswer(lib, rules, req, resolves, addrs, answer)
  {
    for i := 0 to |rules|
      invariant forall j :: 0 <= j < i ==> !Matches(lib, rules[j], req)
    {
      var ok := Match(lib, rules[i], req);
      if ok {
        return Some(i);
      }
    }
    if resolves {
      for i := 0 to |rules|
        invariant forall j :: 0 <= j < i ==> !MatchesSome(lib, rules[j], req, addrs)
      {
        for k := 0 to |addrs|
          invariant forall m :: 0 <= m < k ==> !Matches(lib, rules[i], OnAddress(lib, req, addrs[m]))
        {
          var ok := Match(lib, rules[i], OnAddress(lib, req, addrs[k]));
          if ok {
            return Some(i);
          }
        }
      }
    }
    return None;
  }

  lemma MatchesSomeOfSet(lib: Library, r: Rule, req: Request, a: seq<Addr>, b: seq<Addr>)
    requires forall x :: x in a ==> x in b
    requires MatchesSome(lib, r, req, a)
    ensures MatchesSome(lib, r, req, b)
  {
    var k :| 0 <= k < |a| && Matches(lib, r, OnAddress(lib, req, a[k]));
    assert a[k] in a;
    var m :| 0 <= m < |b| && b[m] == a[k];
    assert Matches(lib, r, OnAddress(lib, req, b[m]));
  }

  /** There is exactly one answer, and it depends only on the set of addresses: any
      order, and any repetition, gives the same rule. */
  lemma AnswerIgnoresOrder(lib: Library, rules: seq<Rule>, req: Request, resolves: bool, a: seq<Addr>, b: seq<Addr>,
        x: Option<nat>, y: Option<nat>)
    requires forall z :: z in a <==> z in b
    requires IsAnswer(lib, rules, req, resolves, a, x) && IsAnswer(lib, rules, req, resolves, b, y)
    ensures x == y
  {
    forall i | 0 <= i < |rules| ensures MatchesSome(lib, rules[i], req, a) <==> MatchesSome(lib, rules[i], req, b) {
      if MatchesSome(lib, rules[i], req, a) {
        MatchesSomeOfSet(lib, rules[i], req, a, b);
      }
      if MatchesSome(lib, rules[i], req, b) {
        MatchesSomeOfSet(lib, rules[i], req, b, a);
      }
    }
    if x.Some? && y.Some? {
      FirstsAgree(lib, rules, req, a, b, x.value, y.value);
    }
  }

  lemma FirstsAgree(lib: Library, rules: seq<Rule>, req: Request, a: seq<Addr>, b: seq<Addr>, i: nat, j: nat)
    requires i < |rules| && j < |rules|
    requires forall k :: 0 <= k < |rules| ==>
             (MatchesSome(lib, rules[k], req, a) <==> MatchesSome(lib, rules[k], req, b))
    ensures FirstDirect(lib, rules, req, i) && FirstDirect(lib, rules, req, j) ==> i == j
    ensures FirstOnSome(lib, rules, req, a, i) && FirstOnSome(lib, rules, req, b, j) ==> i == j
  {}

  /** Resolve: the matching rule's outbound, or the default, or the first one. */
  method Resolve(lib: Library, rules: seq<Rule>, req: Request, resolves: bool, addrs: seq<Addr>, fallback: string,
        first: string)
    returns (tag: string, answer: Option<nat>)
    ensures IsAnswer(lib, rules, req, resolves, addrs, answer)
    ensures answer.Some? ==> answer.value < |rules| && tag == rules[answer.value].tag
    ensures answer.None? ==> tag == if fallback != "" then fallback else first
  {
    answer := ResolveRule(lib, rules, req, resolves, addrs);
    if answer.Some? {
      return rules[answer.value].tag, answer;
    }
    tag := fallback;
    if tag == "" {
      tag := first;
    }
  }
}

/** The ChinaDNS groups written for the domain rules of a policy
    (internal/localtun/selective_linux.go, startManagedDNS). */
module DnsGroups {
  import opened Options
  import opened IngressPolicy

  datatype Group = Group(index: nat, domains: seq<string>)

  function DomainGroups(rules: seq<IngressRule>): seq<Group> {
    if rules == [] then [] else
      var init, last := DomainGroups(rules[..|rules| - 1]), rules[|rules| - 1];
      if last.domains == [] then init else init + [Group(last.index, last.domains)]
  }

  function Reversed(s: seq<Group>): (r: seq<Group>)
    ensures |r| == |s| && forall i :: 0 <= i < |s| ==> r[i] == s[|s| - 1 - i]
  {
    seq(|s|, i requires 0 <= i < |s| => s[|s| - 1 - i])
  }

  /** ChinaDNS puts a name in the last declared group that lists it. */
  function Winner(groups: seq<Group>, name: string): Option<nat> {
    if groups == [] then None
    else if NameListed(groups[|groups| - 1].domains, Some(name)) then Some(groups[|groups| - 1].index)
    else Winner(groups[..|groups| - 1], name)
  }

  /** The panel's order: the first rule whose domains list the name. */
  function FirstDomainRule(rules: seq<IngressRule>, name: string): Option<nat> {
    if rules == [] then None
    else if NameListed(rules[0].domains, Some(name)) then Some(rules[0].index)
    else FirstDomainRule(rules[1..], name)
  }

  method ReverseInPlace(a: array<Group>)
    modifies a
    ensures a[..] == Reversed(old(a[..]))
  {
    var i, j := 0, a.Length - 1;
    while i < j
      invariant 0 <= i <= a.Length && j == a.Length - 1 - i
      invariant forall k :: 0 <= k < a.Length && (k < i || k > j) ==> a[k] == old(a[a.Length - 1 - k])
      invariant forall k :: i <= k <= j ==> a[k] == old(a[k])
    {
      a[i], a[j] := a[j], a[i];
      i, j := i + 1, j - 1;
    }
  }

  method ManagedGroups(rules: seq<IngressRule>) returns (groups: seq<Group>)
    ensures groups == Reversed(DomainGroups(rules))
  {
    groups := [];
    for i := 0 to |rules|
      invariant groups == DomainGroups(rules[..i])
    {
      assert rules[..i + 1][..i] == rules[..i];
      if |rules[i].domains| == 0 {
        continue;
      }
      groups := groups + [Group(rules[i].index, rules[i].domains)];
    }
    assert rules[..|rules|] == rules;
    var a := new Group[|groups|](i requires 0 <= i < |groups| => groups[i]);
    assert a[..] == groups;
    ReverseInPlace(a);
    groups := a[..];
  }

  lemma {:induction false} FirstDomainRuleConcat(s: seq<IngressRule>, t: seq<IngressRule>, name: string)
    ensures FirstDomainRule(s + t, name) ==
            if FirstDomainRule(s, name).Some? then FirstDomainRule(s, name) else FirstDomainRule(t, name)
  {
    if s == [] {
      assert s + t == t;
    } else {
      assert (s + t)[1..] == s[1..] + t;
      FirstDomainRuleConcat(s[1..], t, name);
    }
  }

  lemma {:induction false} WinnerCons(g: Group, groups: seq<Group>, name: string)
    ensures Winner([g] + groups, name) ==
            if Winner(groups, name).Some? then Winner(groups, name)
            else if NameListed(g.domains, Some(name)) then Some(g.index) else None
  {
    var all := [g] + groups;
    if groups == [] {
      assert all == [g] && all[..0] == [];
    } else {
      assert all[..|all| - 1] == [g] + groups[..|groups| - 1];
      WinnerCons(g, groups[..|groups| - 1], name);
    }
  }

  /** Declared in reverse, the groups give each name to its first rule. */
  lemma {:induction false} GroupPriority(rules: seq<IngressRule>, name: string)
    ensures Winner(Reversed(DomainGroups(rules)), name) == FirstDomainRule(rules, name)
  {
    if rules != [] {
      var init, last := rules[..|rules| - 1], rules[|rules| - 1];
      GroupPriority(init, name);
      assert rules == init + [last];
      FirstDomainRuleConcat(init, [last], name);
      assert FirstDomainRule([last], name) == if NameListed(last.domains, Some(name)) then Some(last.index) else None;
      if last.domains != [] {
        var g := Group(last.index, last.domains);
        assert Reversed(DomainGroups(rules)) == [g] + Reversed(DomainGroups(init));
        WinnerCons(g, Reversed(DomainGroups(init)), name);
      }
    }
  }
}

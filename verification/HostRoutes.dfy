/** The route controller of the local TUN and the supervisor loop that drives it
    (internal/localtun/selective_linux.go and manager.go). Every external command
    may fail, and a failing command may still have taken effect; each `nft -f`
    batch is atomic. */
module HostRoutes {
  import opened Options

  // ---- what the controller changes on the host -------------------------------

  datatype Target = ClassifyChain | KillswitchChain

  datatype BaseChain = Prerouting | DnsPrerouting

  datatype Rule = Jump(target: Target) | RedirectUdp | RedirectTcp

  /** The base chains of the nft table, with their rules in order. */
  type Chains = map<BaseChain, seq<Rule>>

  datatype Host = Host(table: Option<Chains>, rpdb: bool, route: bool, rpdb6: bool, route6: bool, dns: bool)

  datatype NftOp =
    | DeleteTable
    | CreateTable(guarded: bool)
    | AddChain(chain: BaseChain)
    | FlushChain(chain: BaseChain)
    | DeleteChain(chain: BaseChain)
    | AddRule(chain: BaseChain, rule: Rule)

  function ChainRules(t: Chains, c: BaseChain): seq<Rule> {
    if c in t then t[c] else []
  }

  /** One command of a batch; None when nft rejects it. */
  function ApplyOp(t: Option<Chains>, op: NftOp): Option<Option<Chains>> {
    match op
    case DeleteTable => if t.Some? then Some(None) else None
    case CreateTable(guarded) =>
      var base := if t.Some? then t.value else map[];
      Some(Some(if !guarded then base else
                  base[Prerouting := ChainRules(base, Prerouting) + [Jump(KillswitchChain)]]
                      [DnsPrerouting := ChainRules(base, DnsPrerouting) + [RedirectUdp, RedirectTcp]]))
    case AddChain(c) => if t.None? then None else Some(Some(t.value[c := ChainRules(t.value, c)]))
    case FlushChain(c) => if t.None? || c !in t.value then None else Some(Some(t.value[c := []]))
    case DeleteChain(c) => if t.None? || c !in t.value || t.value[c] != [] then None else Some(Some(t.value - {c}))
    case AddRule(c, r) => if t.None? || c !in t.value then None else Some(Some(t.value[c := t.value[c] + [r]]))
  }

  /** A batch is committed as a whole or not at all. */
  function ApplyBatch(t: Option<Chains>, ops: seq<NftOp>): Option<Option<Chains>>
    decreases ops
  {
    if ops == [] then Some(t) else
      var next := ApplyOp(t, ops[0]);
      if next.None? then None else ApplyBatch(next.value, ops[1..])
  }

  predicate HasChain(h: Host, c: BaseChain) {
    h.table.Some? && c in h.table.value
  }

  /** The classifier is hooked: LAN packets are being marked for the TUN. */
  predicate Classifying(h: Host) {
    HasChain(h, Prerouting) && Jump(ClassifyChain) in h.table.value[Prerouting]
  }

  /** Marked packets always have a policy rule and a route to follow. */
  predicate Safe(h: Host) {
    Classifying(h) ==> h.rpdb && h.route
  }

  /** The prerouting hook jumps to exactly one chain, the killswitch or the
      classifier. */
  predicate Armed(h: Host) {
    HasChain(h, Prerouting) && |h.table.value[Prerouting]| == 1 && h.table.value[Prerouting][0].Jump?
  }

  predicate AllSafe(trace: seq<Host>) {
    forall i :: 0 <= i < |trace| ==> Safe(trace[i])
  }

  predicate ArmedThrough(trace: seq<Host>, from: nat, to: nat) {
    forall i :: from <= i < to && i < |trace| ==> Armed(trace[i])
  }

  predicate SpansArmed(trace: seq<Host>, spans: seq<(nat, nat)>) {
    forall k :: 0 <= k < |spans| ==> spans[k].0 < spans[k].1 <= |trace| && ArmedThrough(trace, spans[k].0, spans[k].1)
  }

  predicate Clean(h: Host) {
    h == Host(None, false, false, false, false, false)
  }

  /** The killswitch is the only hook target and nothing is behind it. */
  predicate Blocking(h: Host) {
    && HasChain(h, Prerouting) && h.table.value[Prerouting] == [Jump(KillswitchChain)]
    && !h.rpdb && !h.route && !h.rpdb6 && !h.route6 && !h.dns
  }

  /** What a teardown without an error leaves: the killswitch, or nothing. */
  predicate Settled(h: Host, blocked: bool) {
    if blocked then Blocking(h) else Clean(h)
  }

  // ---- the batches -------------------------------------------------------------

  function StageBatch(replace: bool, guarded: bool): seq<NftOp> {
    (if replace then [DeleteTable] else []) + [CreateTable(guarded)]
  }

  function HookOps(c: BaseChain, exists_: bool, rules: seq<Rule>): seq<NftOp>
    requires 1 <= |rules| <= 2
  {
    [if exists_ then FlushChain(c) else AddChain(c), AddRule(c, rules[0])]
    + if |rules| == 2 then [AddRule(c, rules[1])] else []
  }

  function ActivateBatch(pre: bool, dns: bool, target: Target): seq<NftOp> {
    HookOps(Prerouting, pre, [Jump(target)]) + HookOps(DnsPrerouting, dns, [RedirectUdp, RedirectTcp])
  }

  function DetachBatch(pre: bool, dns: bool): seq<NftOp> {
    (if pre then [FlushChain(Prerouting), DeleteChain(Prerouting)] else [])
    + (if dns then [FlushChain(DnsPrerouting), DeleteChain(DnsPrerouting)] else [])
  }

  /** Whatever the table held, the committed stage is guarded by the killswitch
      alone, or hooks nothing. */
  lemma StageResult(t: Option<Chains>, guarded: bool)
    ensures ApplyBatch(t, StageBatch(t.Some?, guarded)) ==
            Some(Some(if guarded then map[Prerouting := [Jump(KillswitchChain)],
              DnsPrerouting := [RedirectUdp, RedirectTcp]] else map[]))
  {
    var create := [CreateTable(guarded)];
    assert create[1..] == [] && [DeleteTable][1..] == [];
    var none: Option<Chains> := None;
    assert ApplyBatch(none, create) == ApplyOp(none, CreateTable(guarded));
    var empty: seq<Rule> := [];
    assert empty + [Jump(KillswitchChain)] == [Jump(KillswitchChain)];
    assert empty + [RedirectUdp, RedirectTcp] == [RedirectUdp, RedirectTcp];
    if t.Some? {
      assert ApplyBatch(t, [DeleteTable]) == Some(None);
      BatchConcat(t, [DeleteTable], create);
    } else {
      assert StageBatch(false, guarded) == create;
    }
  }

  lemma {:induction false} BatchConcat(t: Option<Chains>, s: seq<NftOp>, u: seq<NftOp>)
    ensures ApplyBatch(t, s + u) == if ApplyBatch(t, s).None? then None else ApplyBatch(ApplyBatch(t, s).value, u)
    decreases s
  {
    if s == [] {
      assert s + u == u;
    } else {
      assert (s + u)[1..] == s[1..] + u;
      var next := ApplyOp(t, s[0]);
      if next.Some? {
        BatchConcat(next.value, s[1..], u);
      }
    }
  }

  lemma HookResult(t: Chains, c: BaseChain, rules: seq<Rule>)
    requires 1 <= |rules| <= 2
    ensures ApplyBatch(Some(t), HookOps(c, c in t, rules)) == Some(Some(t[c := rules]))
  {
    var first := if c in t then FlushChain(c) else AddChain(c);
    var t0 := t[c := []];
    assert ApplyBatch(Some(t), [first]) == Some(Some(t0)) by { assert [first][1..] == []; }
    var t1 := t0[c := [rules[0]]];
    assert t0[c] + [rules[0]] == [rules[0]];
    assert ApplyBatch(Some(t0), [AddRule(c, rules[0])]) == Some(Some(t1))
      by { assert [AddRule(c, rules[0])][1..] == []; }
    BatchConcat(Some(t), [first], [AddRule(c, rules[0])]);
    assert [first] + [AddRule(c, rules[0])] == [first, AddRule(c, rules[0])];
    if |rules| == 2 {
      var last := [AddRule(c, rules[1])];
      assert ApplyBatch(Some(t1), last) == Some(Some(t1[c := [rules[0]] + [rules[1]]])) by { assert last[1..] == []; }
      BatchConcat(Some(t), [first, AddRule(c, rules[0])], last);
      assert rules == [rules[0]] + [rules[1]];
      assert t1[c := rules] == t[c := rules];
    } else {
      assert rules == [rules[0]];
      assert t1 == t[c := rules];
      assert HookOps(c, c in t, rules) == [first, AddRule(c, rules[0])];
    }
  }

  /** Publishing replaces whatever the hook jumped to, atomically. */
  lemma ActivateResult(t: Chains, target: Target)
    ensures ApplyBatch(Some(t), ActivateBatch(Prerouting in t, DnsPrerouting in t, target)) ==
            Some(Some(t[Prerouting := [Jump(target)]][DnsPrerouting := [RedirectUdp, RedirectTcp]]))
  {
    HookResult(t, Prerouting, [Jump(target)]);
    HookResult(t[Prerouting := [Jump(target)]], DnsPrerouting, [RedirectUdp, RedirectTcp]);
    BatchConcat(Some(t), HookOps(Prerouting, Prerouting in t, [Jump(target)]),
                HookOps(DnsPrerouting, DnsPrerouting in t, [RedirectUdp, RedirectTcp]));
  }

  lemma DropChainResult(t: Chains, c: BaseChain)
    requires c in t
    ensures ApplyBatch(Some(t), [FlushChain(c), DeleteChain(c)]) == Some(Some(t - {c}))
  {
    var t0 := t[c := []];
    assert [FlushChain(c), DeleteChain(c)][1..] == [DeleteChain(c)] && [DeleteChain(c)][1..] == [];
    assert ApplyBatch(Some(t0), [DeleteChain(c)]) == Some(Some(t0 - {c}));
    assert t0 - {c} == t - {c};
  }

  lemma DetachResult(t: Chains)
    ensures ApplyBatch(Some(t), DetachBatch(Prerouting in t, DnsPrerouting in t)) ==
            Some(Some(t - {Prerouting, DnsPrerouting}))
  {
    var pre := if Prerouting in t then [FlushChain(Prerouting), DeleteChain(Prerouting)] else [];
    var dns := if DnsPrerouting in t then [FlushChain(DnsPrerouting), DeleteChain(DnsPrerouting)] else [];
    if Prerouting in t {
      DropChainResult(t, Prerouting);
    } else {
      assert t - {Prerouting} == t;
    }
    var t0 := t - {Prerouting};
    assert ApplyBatch(Some(t), pre) == Some(Some(t0));
    if DnsPrerouting in t {
      DropChainResult(t0, DnsPrerouting);
    } else {
      assert t0 - {DnsPrerouting} == t0;
    }
    BatchConcat(Some(t), pre, dns);
    assert t0 - {DnsPrerouting} == t - {Prerouting, DnsPrerouting};
  }

  // ---- waiting for a running generation -----------------------------------------

  const HEALTH_FAILURE_LIMIT := 3

  datatype Event = ContextDone | DnsExited | SessionExited | Healthy | Unhealthy

  datatype Exit = StillRunning | Cancelled | Failed

  predicate IsTick(e: Event) { e == Healthy || e == Unhealthy }

  /** The three ticks up to i all found the host unhealthy. */
  predicate ThirdFailure(events: seq<Event>, i: nat) {
    i < |events| && i >= 2 && events[i] == events[i - 1] == events[i - 2] == Unhealthy
  }

  predicate Decides(events: seq<Event>, i: nat)
    requires i < |events|
  {
    !IsTick(events[i]) || ThirdFailure(events, i)
  }

  /** The first deciding event settles the run: a cancelled context ends it
      cleanly, everything else is a failure. */
  method WaitRuntime(events: seq<Event>) returns (exit: Exit)
    ensures exit == StillRunning <==> forall i :: 0 <= i < |events| ==> !Decides(events, i)
    ensures exit != StillRunning ==> exists i :: 0 <= i < |events| && Decides(events, i) &&
                                       (forall j :: 0 <= j < i ==> !Decides(events, j)) &&
                                       (exit == Cancelled <==> events[i] == ContextDone)
  {
    var failures := 0;
    for i := 0 to |events|
      invariant 0 <= failures < HEALTH_FAILURE_LIMIT && failures <= i
      invariant forall j :: 0 <= j < i ==> !Decides(events, j)
      invariant forall j :: i - failures <= j < i ==> events[j] == Unhealthy
      invariant failures == i || events[i - failures - 1] == Healthy
    {
      match events[i] {
        case ContextDone =>
          assert Decides(events, i);
          return Cancelled;
        case DnsExited =>
          assert Decides(events, i);
          return Failed;
        case SessionExited =>
          assert Decides(events, i);
          return Failed;
        case Healthy =>
          failures := 0;
        case Unhealthy =>
          failures := failures + 1;
          if failures >= HEALTH_FAILURE_LIMIT {
            assert Decides(events, i);
            return Failed;
          }
      }
    }
    exit := StillRunning;
  }

  // ---- the controller --------------------------------------------------------------

  /** How one external command or check turns out. */
  datatype Outcome = Works | FailsUntouched | FailsApplied

  class Generation {
    const autoRoute: bool
    const failClosed: bool
    /** The n-th external command of this history behaves as oracle(n) says. */
    const oracle: nat -> Outcome
    /** Whether the n-th external command, if it fails, has still printed something. */
    const prints: nat -> bool

    /** The generation is cancelled by the time of this call at the latest. */
    const cancelAt: nat

    var host: Host
    var calls: nat
    /** Whether this generation's context has been cancelled. */
    var cancelled: bool

    /** Every state the host has been in, oldest first. */
    ghost var trace: seq<Host>
    /** Where in the trace the killswitch in force now was first confirmed. */
    ghost var armedAt: Option<nat>
    /** The earlier spans of the trace from a confirmed killswitch to the Cleanup
        that gave it up. */
    ghost var spans: seq<(nat, nat)>

    ghost predicate Valid()
      reads this
    {
      && trace != [] && trace[|trace| - 1] == host
      && AllSafe(trace) && Safe(host)
      && (armedAt.Some? ==> autoRoute && failClosed && armedAt.value < |trace|)
      && (armedAt.Some? ==> Armed(host) && ArmedThrough(trace, armedAt.value, |trace|))
      && SpansArmed(trace, spans)
    }

    constructor (autoRoute: bool, failClosed: bool, oracle: nat -> Outcome, prints: nat -> bool, cancelAt: nat,
        host: Host)
      requires Safe(host)
      ensures Valid() && this.host == host && this.autoRoute == autoRoute && this.failClosed == failClosed
      ensures this.oracle == oracle && this.prints == prints && this.cancelAt == cancelAt && calls == 0
      ensures armedAt.None? && spans == [] && !cancelled && trace == [host]
    {
      this.autoRoute, this.failClosed, this.oracle, this.prints := autoRoute, failClosed, oracle, prints;
      this.cancelAt, this.host := cancelAt, host;
      calls, cancelled, trace, armedAt, spans := 0, false, [host], None, [];
    }

    /** Run one command whose complete effect is `next` (None: it is rejected). */
    method Command(next: Option<Host>) returns (err: bool)
      requires Valid()
      requires next.Some? ==> Safe(next.value) && (armedAt.Some? ==> Armed(next.value))
      modifies this`host, this`calls, this`trace
      ensures Valid() && trace == old(trace) + [host]
      ensures host == old(host) || next == Some(host)
      ensures !err ==> next == Some(host)
    {
      var outcome := oracle(calls);
      calls := calls + 1;
      err := outcome != Works || next.None?;
      if outcome != FailsUntouched && next.Some? {
        host := next.value;
      }
      trace := trace + [host];
    }

    /** A query or check: it changes nothing and, when it works, tells the truth. */
    method Ask() returns (err: bool)
      requires Valid()
      modifies this`calls
      ensures Valid() && calls == old(calls) + 1 && (err <==> oracle(old(calls)) != Works)
    {
      err := oracle(calls) != Works;
      calls := calls + 1;
    }

    method Nft(ops: seq<NftOp>) returns (err: bool)
      requires Valid()
      requires var t := ApplyBatch(host.table, ops);
               t.Some? ==> Safe(host.(table := t.value)) && (armedAt.Some? ==> Armed(host.(table := t.value)))
      modifies this`host, this`calls, this`trace
      ensures Valid() && trace == old(trace) + [host]
      ensures var t := ApplyBatch(old(host).table, ops);
              && (host == old(host) || (t.Some? && host == old(host).(table := t.value)))
              && (!err ==> t.Some? && host == old(host).(table := t.value))
    {
      var t := ApplyBatch(host.table, ops);
      err := Command(if t.None? then None else Some(host.(table := t.value)));
    }

    /** The dataplane teardown shared by Cleanup and EnterFailClosed: every
        command runs even after one has failed. */
    method TearDown() returns (err: bool)
      requires Valid() && !Classifying(host)
      modifies this`host, this`calls, this`trace
      ensures Valid() && old(trace) <= trace && host.table == old(host).table
      ensures !err ==> host == Host(old(host).table, false, false, false, false, false)
    {
      var e1 := Change(host.(dns := false));
      var e2 := DropStaleV6();
      var e3 := Change(host.(rpdb := false));
      var e4 := Change(host.(route := false));
      err := e1 || e2 || e3 || e4;
    }

    /** Remove the IPv6 rule and route that older builds installed. */
    method DropStaleV6() returns (err: bool)
      requires Valid() && !Classifying(host)
      modifies this`host, this`calls, this`trace
      ensures Valid() && old(trace) <= trace
              && (exists rpdb6, route6 :: host == old(host).(rpdb6 := rpdb6, route6 := route6))
      ensures !err ==> host == old(host).(rpdb6 := false, route6 := false)
    {
      var e1 := Change(host.(rpdb6 := false));
      var e2 := Change(host.(route6 := false));
      err := e1 || e2;
    }

    /** A command that leaves the nft table alone, run with no classifier hooked. */
    method Change(next: Host) returns (err: bool)
      requires Valid() && !Classifying(host) && next.table == host.table
      modifies this`host, this`calls, this`trace
      ensures Valid() && old(trace) <= trace && (host == old(host) || host == next)
      ensures !err ==> host == next
    {
      err := Command(Some(next));
    }

    method DeactivateHooks() returns (err: bool)
      requires Valid() && armedAt.None?
      modifies this`host, this`calls, this`trace
      ensures Valid() && old(trace) <= trace
      ensures host == old(host)
              || (&& old(host).table.Some?
                  && host == old(host).(table := Some(old(host).table.value - {Prerouting, DnsPrerouting})))
      ensures !err ==> !HasChain(host, Prerouting) && !HasChain(host, DnsPrerouting)
    {
      err := Ask();
      if err || host.table.None? {
        return;
      }
      err := Ask();
      if err {
        return;
      }
      err := Ask();
      if err {
        return;
      }
      DetachResult(host.table.value);
      var batch := DetachBatch(HasChain(host, Prerouting), HasChain(host, DnsPrerouting));
      if |batch| == 0 {
        return;
      }
      err := Nft(batch);
    }

    /** Queries the end state. A failed `ip rule show`, which is the second query, is
        reported only if it printed something. */
    method VerifyCleanup() returns (err: bool)
      requires Valid()
      modifies this`calls
      ensures Valid()
      ensures !err ==> host.table.None? && !host.route && !host.route6
      ensures !err ==> if oracle(old(calls) + 1) == Works then !host.rpdb else !prints(old(calls) + 1)
    {
      var tableErr := Ask();
      var printed := prints(calls);
      var ruleErr := Ask();
      var routeErr := Ask();
      var route6Err := Ask();
      err := tableErr || host.table.Some? || (if ruleErr then printed else host.rpdb)
        || routeErr || host.route || route6Err || host.route6;
    }

    /** Nothing is torn down while the hooks may still mark traffic; success
        means that nothing of the generation is left. A killswitch in force is given
        up from here on. */
    method Cleanup() returns (err: bool)
      requires Valid()
      modifies this`host, this`calls, this`trace, this`armedAt, this`spans
      ensures Valid() && old(trace) <= trace && armedAt.None?
      ensures spans == old(spans) + if old(armedAt).Some? then [(old(armedAt).value, |old(trace)|)] else []
      ensures !err ==> Clean(host)
      ensures Classifying(host) ==> host.rpdb == old(host).rpdb && host.route == old(host).route
    {
      if armedAt.Some? {
        spans := spans + [(armedAt.value, |trace|)];
        armedAt := None;
      }
      err := DeactivateHooks();
      if err {
        return;
      }
      var torn := TearDown();
      var tableErr := Command(Some(host.(table := None)));
      var verifyErr := VerifyCleanup();
      err := torn || tableErr || verifyErr;
    }

    /** With a success the killswitch is confirmed: the hook jumps to it, and only
        then is the dataplane gone; without the opt-in mode this is Cleanup. */
    method EnterFailClosed() returns (err: bool)
      requires Valid()
      modifies this`host, this`calls, this`trace, this`armedAt, this`spans
      ensures Valid() && old(trace) <= trace && spans == old(spans) && (old(armedAt).Some? ==> armedAt == old(armedAt))
      ensures !err && autoRoute && failClosed ==> armedAt.Some?
      ensures !err ==> Settled(host, autoRoute && failClosed)
    {
      if !autoRoute || !failClosed {
        err := Cleanup();
        return;
      }
      err := Ask();
      if err {
        return;
      }
      StageResult(host.table, true);
      err := Nft(StageBatch(host.table.Some?, true));
      if err {
        return;
      }
      err := TearDown();
      if !err && armedAt.None? {
        armedAt := Some(|trace| - 1);
      }
    }

    method RollbackSetup() returns (err: bool)
      requires Valid()
      modifies this`host, this`calls, this`trace, this`armedAt, this`spans
      ensures Valid() && old(trace) <= trace && spans == old(spans) && (old(armedAt).Some? ==> armedAt == old(armedAt))
      ensures !err ==> Settled(host, autoRoute && failClosed)
    {
      if failClosed {
        err := EnterFailClosed();
      } else {
        err := Cleanup();
      }
    }

    method ActivateHooks(target: Target) returns (err: bool)
      requires Valid() && host.table.Some?
      requires target == ClassifyChain ==> host.rpdb && host.route
      modifies this`host, this`calls, this`trace
      ensures Valid() && old(trace) <= trace
      ensures !err ==> host == old(host).(table :=
              Some(old(host).table.value[Prerouting := [Jump(target)]][DnsPrerouting := [RedirectUdp, RedirectTcp]]))
    {
      err := Ask();
      if err {
        return;
      }
      err := Ask();
      if err {
        return;
      }
      ActivateResult(host.table.value, target);
      err := Nft(ActivateBatch(HasChain(host, Prerouting), HasChain(host, DnsPrerouting), target));
    }

    /** Success publishes the classifier over a complete dataplane. A failure either
        touched nothing or was rolled back, unless the rollback failed as well.
        `dynamic` says whether the policy has domain groups. */
    method Setup(dynamic: bool) returns (err: bool, rollbackErr: bool)
      requires Valid()
      modifies this`host, this`calls, this`trace, this`armedAt, this`spans
      ensures Valid() && old(trace) <= trace && spans == old(spans) && (old(armedAt).Some? ==> armedAt == old(armedAt))
      ensures !err && autoRoute ==>
                && HasChain(host, Prerouting) && host.table.value[Prerouting] == [Jump(ClassifyChain)]
                && host.rpdb && host.route && !host.rpdb6 && !host.route6 && (dynamic ==> host.dns)
      ensures rollbackErr ==> err
      ensures err && !rollbackErr ==> host == old(host) || Settled(host, autoRoute && failClosed)
    {
      rollbackErr := false;
      err := Command(Some(host)); // ip addr replace
      if err {
        return;
      }
      err := Command(Some(host)); // ip link set
      if err || !autoRoute {
        return;
      }
      err := Ask(); // interface, policy and bridge members
      if err {
        return;
      }
      err := Stage();
      if !err {
        err := Publish(dynamic);
      }
      if err {
        rollbackErr := RollbackSetup();
      }
    }

    /** Phase 1: staged sets and chains, then the dataplane behind them. */
    method Stage() returns (err: bool)
      requires Valid() && autoRoute
      modifies this`host, this`calls, this`trace
      ensures Valid() && old(trace) <= trace
      ensures !err ==> host.table.Some? && !Classifying(host) && host.rpdb && host.route && !host.rpdb6 && !host.route6
    {
      err := Ask();
      if err {
        return;
      }
      StageResult(host.table, failClosed);
      err := Nft(StageBatch(host.table.Some?, failClosed));
      if err {
        return;
      }
      err := Change(host.(route := true));
      if err {
        return;
      }
      var e1 := DropStaleV6();
      var e2 := Change(host.(rpdb := false));
      err := e1 || e2;
      if err {
        return;
      }
      err := Command(if host.rpdb then None else Some(host.(rpdb := true)));
    }

    /** Phase 2: managed DNS, then both hooks in one batch. */
    method Publish(dynamic: bool) returns (err: bool)
      requires Valid() && host.table.Some? && !Classifying(host) && host.rpdb && host.route
      modifies this`host, this`calls, this`trace
      ensures Valid() && old(trace) <= trace
      ensures !err ==>
                && HasChain(host, Prerouting) && host.table.value[Prerouting] == [Jump(ClassifyChain)]
                && host.rpdb && host.route && host.rpdb6 == old(host).rpdb6 && host.route6 == old(host).route6
                && (dynamic ==> host.dns)
    {
      if dynamic {
        err := Command(Some(host.(dns := true)));
        if err {
          return;
        }
      }
      err := ActivateHooks(ClassifyChain);
    }

    // ---- the supervisor ----------------------------------------------------------

    /** ctx.Err() != nil; once cancelled, a context stays cancelled. */
    method ContextErr() returns (c: bool)
      requires Valid()
      modifies this`cancelled, this`calls
      ensures Valid() && c == cancelled && (old(cancelled) ==> cancelled)
    {
      cancelled := cancelled || calls >= cancelAt;
      calls := calls + 1;
      c := cancelled;
    }

    /** A killswitch in force is given up only by a cancelled generation. */
    method FinishRoutes(runtimeErr: bool) returns (err: bool)
      requires Valid() && (runtimeErr || cancelled)
      modifies this
      ensures Valid() && old(trace) <= trace && (old(cancelled) ==> cancelled)
      ensures !cancelled ==> spans == old(spans) && (old(armedAt).Some? ==> armedAt == old(armedAt))
      ensures !err ==> Settled(host, !cancelled && runtimeErr && autoRoute && failClosed)
    {
      var done := ContextErr();
      if !done && runtimeErr && failClosed {
        err := EnterFailClosed();
      } else {
        err := Cleanup();
      }
    }

    /** One attempt. The attempt's script says what the TUN engine and the running
        session do; events that never decide leave the session running. */
    method RunOnce(attempt: Attempt) returns (running: bool, teardownErr: bool)
      requires Valid()
      modifies this
      ensures Valid() && old(trace) <= trace && (old(cancelled) ==> cancelled)
      ensures !cancelled ==> spans == old(spans) && (old(armedAt).Some? ==> armedAt == old(armedAt))
      ensures running && autoRoute && failClosed ==> armedAt.Some?
      ensures running && autoRoute ==>
                HasChain(host, Prerouting) && host.table.value[Prerouting] == [Jump(ClassifyChain)]
                  && host.rpdb && host.route
      ensures !running && !teardownErr ==> Blocking(host) || Clean(host)
    {
      running := false;
      if failClosed {
        teardownErr := EnterFailClosed();
      } else {
        teardownErr := Cleanup();
      }
      if teardownErr {
        return;
      }
      var err := !attempt.engineStarts;
      if !err {
        var setupErr, _ := Setup(attempt.dynamic);
        err := setupErr || attempt.startFails;
      }
      if err {
        teardownErr := FinishRoutes(true);
        return;
      }
      var exit := WaitRuntime(attempt.events);
      if exit == StillRunning {
        running := true;
        return;
      }
      if exit == Cancelled {
        cancelled := true;
      }
      teardownErr := FinishRoutes(exit == Failed);
    }

    /** Any number of attempts. Whatever fails along the way, every state is safe,
        and a confirmed killswitch stays armed in every state until a cancelled
        generation starts its cleanup. */
    method Supervise(attempts: seq<Attempt>) returns (done: bool, finalErr: bool)
      requires Valid()
      modifies this
      ensures Valid() && old(trace) <= trace && AllSafe(trace) && SpansArmed(trace, spans)
      ensures armedAt.Some? ==> ArmedThrough(trace, armedAt.value, |trace|)
      ensures !cancelled ==> spans == old(spans) && (old(armedAt).Some? ==> armedAt == old(armedAt))
      ensures done ==> cancelled && (!finalErr ==> Clean(host))
    {
      done, finalErr := false, false;
      for n := 0 to |attempts|
        invariant Valid() && old(trace) <= trace
        invariant !cancelled ==> spans == old(spans) && (old(armedAt).Some? ==> armedAt == old(armedAt))
      {
        var running, _ := RunOnce(attempts[n]);
        if running {
          return;
        }
        var stop := ContextErr();
        if !stop && !attempts[n].timerFirst {
          stop := ContextErr();
        }
        if stop {
          finalErr := Cleanup();
          done := true;
          return;
        }
      }
    }

    /** The host after a call that reported no error. */
    ghost predicate Leaves(call: Call)
      reads this
    {
      match call
      case CallSetup(dynamic) => autoRoute ==>
        && HasChain(host, Prerouting) && host.table.value[Prerouting] == [Jump(ClassifyChain)]
        && host.rpdb && host.route && !host.rpdb6 && !host.route6 && (dynamic ==> host.dns)
      case CallCleanup => Clean(host)
      case CallRollback => Settled(host, autoRoute && failClosed)
      case CallEnterFailClosed =>
        Settled(host, autoRoute && failClosed) && (autoRoute && failClosed ==> armedAt.Some?)
    }

    /** Any calls in any order, not only the supervisor's, in either mode. Every
        state is safe, and nothing but a Cleanup gives a confirmed killswitch up. */
    method Drive(script: seq<Call>) returns (lastErr: bool)
      requires Valid()
      modifies this
      ensures Valid() && old(trace) <= trace && AllSafe(trace) && SpansArmed(trace, spans)
      ensures armedAt.Some? ==> ArmedThrough(trace, armedAt.value, |trace|)
      ensures CallCleanup !in script ==> spans == old(spans) && (old(armedAt).Some? ==> armedAt == old(armedAt))
      ensures |script| > 0 && !lastErr ==> Leaves(script[|script| - 1])
    {
      lastErr := false;
      for n := 0 to |script|
        invariant Valid() && old(trace) <= trace
        invariant CallCleanup !in script[..n] ==>
                  spans == old(spans) && (old(armedAt).Some? ==> armedAt == old(armedAt))
        invariant n > 0 && !lastErr ==> Leaves(script[n - 1])
      {
        match script[n] {
          case CallSetup(dynamic) =>
            var setupErr, _ := Setup(dynamic);
            lastErr := setupErr;
          case CallCleanup => lastErr := Cleanup();
          case CallRollback => lastErr := RollbackSetup();
          case CallEnterFailClosed => lastErr := EnterFailClosed();
        }
      }
    }
  }

  /** The operations that the controller offers. */
  datatype Call = CallSetup(dynamic: bool) | CallCleanup | CallRollback | CallEnterFailClosed

  /** What the environment does during one attempt of the supervisor loop;
      `startFails` means that the engine fails to start after the routes were set up,
      and `timerFirst` means that the retry timer wins over a cancelled context. */
  datatype Attempt = Attempt(dynamic: bool, engineStarts: bool, startFails: bool, events: seq<Event>, timerFirst: bool)
}

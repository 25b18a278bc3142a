/** The balancer outbound: attempt order, latency hysteresis and failover
    (internal/outbounds/balancer.go). Members are named by their position. */
module Balancer {
  import opened Integers
  import opened Options
  import opened Sequences

  // ---- int64 arithmetic ---------------------------------------------------------

  predicate IsInt64(x: int) { -TWO_63 <= x < TWO_63 }

  /** Go's integer division truncates toward zero. */
  function Quotient(a: int, b: int): int
    requires b > 0
  {
    if a >= 0 then a / b else -((-a) / b)
  }

  /** rttRecoveryThresholdMs, with the product wrapping as int64 does. */
  function RecoveryThreshold(threshold: int): int {
    if threshold <= 1 then 0
    else
      var tenths := Quotient(Signed(threshold * 9, TWO_63), 10);
      var below := if tenths >= threshold then threshold - 1 else tenths;
      if below < 1 then 1 else below
  }

  /** For every int64 threshold above one, the recovery level lies strictly below
      it and at least at one, wrap-around or not. */
  lemma RecoveryBelowThreshold(threshold: int)
    requires IsInt64(threshold) && threshold > 1
    ensures 1 <= RecoveryThreshold(threshold) < threshold
  {}

  // ---- latency classes ----------------------------------------------------------

  datatype Snapshot = Snapshot(p50: int, last: int)

  /** balancerRTTMetricMs: the worse of the two known figures. */
  function Metric(s: Snapshot): (r: Option<int>)
    ensures r.None? <==> s.p50 < 0 && s.last < 0
    ensures r.Some? ==> r.value >= 0 && r.value >= s.p50 && r.value >= s.last && (r.value == s.p50 || r.value == s.last)
  {
    if s.p50 < 0 && s.last < 0 then None
    else if s.p50 < 0 then Some(s.last)
    else if s.last < 0 then Some(s.p50)
    else if s.last > s.p50 then Some(s.last) else Some(s.p50)
  }

  /** Whether a member counts as slow, given whether it did before. */
  function Slow(was: bool, metric: Option<int>, threshold: int): bool {
    metric.Some? && metric.value > (if was then RecoveryThreshold(threshold) else threshold)
  }

  /** The state a member's flag is in after a series of observations. */
  function SlowAfter(was: bool, metrics: seq<Option<int>>, threshold: int): bool {
    if metrics == [] then was
    else Slow(SlowAfter(was, metrics[..|metrics| - 1], threshold), metrics[|metrics| - 1], threshold)
  }

  /** Hysteresis: while the RTT stays above the recovery level and at most at the
      threshold, the member's class never changes. */
  lemma {:induction false} NoFlapping(was: bool, metrics: seq<Option<int>>, threshold: int)
    requires forall i :: 0 <= i < |metrics| ==>
               metrics[i].Some? && RecoveryThreshold(threshold) < metrics[i].value <= threshold
    ensures SlowAfter(was, metrics, threshold) == was
  {
    if metrics != [] {
      NoFlapping(was, metrics[..|metrics| - 1], threshold);
    }
  }

  // ---- stable sorting by RTT -------------------------------------------------------

  datatype Choice = Choice(index: nat, rtt: int)

  predicate Precedes(a: Choice, b: Choice) {
    a.rtt < b.rtt || (a.rtt == b.rtt && a.index < b.index)
  }

  /** Sorted by RTT with ties in configuration order. */
  predicate StablySorted(s: seq<Choice>) {
    forall i, j :: 0 <= i < j < |s| ==> Precedes(s[i], s[j])
  }

  predicate Ascending(s: seq<nat>) {
    forall i, j :: 0 <= i < j < |s| ==> s[i] < s[j]
  }

  /** Insert a later element behind all that are not slower than it. */
  function InsertStable(s: seq<Choice>, x: Choice): (r: seq<Choice>)
    ensures multiset(r) == multiset(s) + multiset{x}
  {
    if s == [] || s[|s| - 1].rtt <= x.rtt then s + [x]
    else
      SplitLast(s);
      InsertStable(s[..|s| - 1], x) + [s[|s| - 1]]
  }

  /** sort.SliceStable by RTT. */
  function SortStable(s: seq<Choice>): (r: seq<Choice>)
    ensures multiset(r) == multiset(s)
  {
    if s == [] then [] else
      SplitLast(s);
      InsertStable(SortStable(s[..|s| - 1]), s[|s| - 1])
  }

  lemma {:induction false} InsertStableSorted(s: seq<Choice>, x: Choice)
    requires StablySorted(s) && forall y :: y in s ==> y.index < x.index
    ensures StablySorted(InsertStable(s, x))
  {
    if s != [] && s[|s| - 1].rtt > x.rtt {
      var init, last := s[..|s| - 1], s[|s| - 1];
      InsertStableSorted(init, x);
      forall y | y in InsertStable(init, x) ensures Precedes(y, last) {
        assert y in multiset(InsertStable(init, x));
        assert y == x || y in init;
      }
    } else {
      forall i | 0 <= i < |s| ensures Precedes(s[i], x) {
        assert s[i] in s;
        assert i < |s| - 1 ==> Precedes(s[i], s[|s| - 1]);
      }
    }
  }

  predicate IndexAscending(s: seq<Choice>) {
    forall i, j :: 0 <= i < j < |s| ==> s[i].index < s[j].index
  }

  lemma {:induction false} SortStableSorted(s: seq<Choice>)
    requires IndexAscending(s)
    ensures StablySorted(SortStable(s))
  {
    if s != [] {
      var init, last := s[..|s| - 1], s[|s| - 1];
      SortStableSorted(init);
      forall y | y in SortStable(init) ensures y.index < last.index {
        assert y in multiset(SortStable(init));
        assert y in init;
      }
      InsertStableSorted(SortStable(init), last);
    }
  }

  // ---- the balancer --------------------------------------------------------------

  datatype Mode = RoundRobin | Alive

  datatype Settings = Settings(mode: Mode, failoverOnHighRtt: bool, threshold: int, cooldown: int) {
    predicate WatchesRtt() { mode == Alive && failoverOnHighRtt && threshold > 0 }
  }

  /** Where a member stands when an order is asked for. */
  datatype Class = Healthy | High(rtt: int) | Cooling

  predicate IsHealthy(c: Class) { c.Healthy? }

  predicate IsCooling(c: Class) { c.Cooling? }

  function ClassOf(cfg: Settings, cooldown: int, was: bool, metric: Option<int>, now: int): Class {
    if cooldown > now then Cooling
    else if cfg.WatchesRtt() && Slow(was, metric, cfg.threshold) then High(metric.value)
    else Healthy
  }

  /** Cooling members are not looked at, so their flag stays as it was. */
  function FlagAfter(cfg: Settings, cooldown: int, was: bool, metric: Option<int>, now: int): bool {
    if cooldown > now || !cfg.WatchesRtt() then was else Slow(was, metric, cfg.threshold)
  }

  function Classes(cfg: Settings, cooldowns: seq<int>, flags: seq<bool>, metrics: seq<Option<int>>, now: int):
        (r: seq<Class>)
    requires |cooldowns| == |flags| == |metrics|
    ensures |r| == |cooldowns|
    ensures forall i :: 0 <= i < |r| ==> r[i] == ClassOf(cfg, cooldowns[i], flags[i], metrics[i], now)
  {
    seq(|cooldowns|, i requires 0 <= i < |cooldowns| => ClassOf(cfg, cooldowns[i], flags[i], metrics[i], now))
  }

  function FlagsAfter(cfg: Settings, cooldowns: seq<int>, flags: seq<bool>, metrics: seq<Option<int>>, now: int):
        (r: seq<bool>)
    requires |cooldowns| == |flags| == |metrics|
    ensures |r| == |cooldowns|
    ensures forall i :: 0 <= i < |r| ==> r[i] == FlagAfter(cfg, cooldowns[i], flags[i], metrics[i], now)
  {
    seq(|cooldowns|, i requires 0 <= i < |cooldowns| => FlagAfter(cfg, cooldowns[i], flags[i], metrics[i], now))
  }

  /** Flags taken from done below i and from was at and above it. */
  predicate Spliced(flags: seq<bool>, done: seq<bool>, was: seq<bool>, i: nat)
    requires |flags| == |done| == |was|
  {
    forall k :: 0 <= k < |flags| ==> flags[k] == if k < i then done[k] else was[k]
  }

  /** The positions below n whose class satisfies p, in configuration order. */
  function Positions(classes: seq<Class>, n: nat, p: Class -> bool): seq<nat>
    requires n <= |classes|
  {
    if n == 0 then []
    else Positions(classes, n - 1, p) + (if p(classes[n - 1]) then [n - 1] else [])
  }

  function SlowChoices(classes: seq<Class>, n: nat): seq<Choice>
    requires n <= |classes|
  {
    if n == 0 then []
    else SlowChoices(classes, n - 1) + (if classes[n - 1].High? then [Choice(n - 1, classes[n - 1].rtt)] else [])
  }

  function Indices(s: seq<Choice>): (r: seq<nat>)
    ensures |r| == |s| && forall i :: 0 <= i < |s| ==> r[i] == s[i].index
  {
    seq(|s|, i requires 0 <= i < |s| => s[i].index)
  }

  function HealthyPart(classes: seq<Class>): seq<nat> { Positions(classes, |classes|, IsHealthy) }

  function SlowPart(classes: seq<Class>): seq<Choice> { SortStable(SlowChoices(classes, |classes|)) }

  function CoolingPart(classes: seq<Class>): seq<nat> { Positions(classes, |classes|, IsCooling) }

  function AliveOrder(classes: seq<Class>): seq<nat> {
    HealthyPart(classes) + Indices(SlowPart(classes)) + CoolingPart(classes)
  }

  ghost predicate Lists(s: seq<nat>, classes: seq<Class>, n: nat, p: Class -> bool)
    requires n <= |classes|
  {
    forall i: nat :: i in s <==> i < n && p(classes[i])
  }

  ghost predicate ListsSlow(s: seq<Choice>, classes: seq<Class>, n: nat)
    requires n <= |classes|
  {
    forall c: Choice :: c in s <==> c.index < n && classes[c.index] == High(c.rtt)
  }

  lemma {:induction false} PositionsList(classes: seq<Class>, n: nat, p: Class -> bool)
    requires n <= |classes|
    ensures Ascending(Positions(classes, n, p)) && Lists(Positions(classes, n, p), classes, n, p)
  {
    if n > 0 {
      PositionsList(classes, n - 1, p);
      var before := Positions(classes, n - 1, p);
      assert forall k :: 0 <= k < |before| ==> before[k] in before;
    }
  }

  lemma {:induction false} SlowChoicesList(classes: seq<Class>, n: nat)
    requires n <= |classes|
    ensures IndexAscending(SlowChoices(classes, n)) && ListsSlow(SlowChoices(classes, n), classes, n)
  {
    if n > 0 {
      SlowChoicesList(classes, n - 1);
      var before := SlowChoices(classes, n - 1);
      assert forall k :: 0 <= k < |before| ==> before[k] in before;
    }
  }

  /** The slow part is sorted by RTT, ties in configuration order, and lists
      exactly the slow members with their RTTs. */
  lemma SlowPartLists(classes: seq<Class>)
    ensures StablySorted(SlowPart(classes)) && ListsSlow(SlowPart(classes), classes, |classes|)
  {
    var s := SlowChoices(classes, |classes|);
    SlowChoicesList(classes, |classes|);
    SortStableSorted(s);
    SameElements(SortStable(s), s);
  }

  /** Every member exactly once. */
  ghost predicate EachOnce(order: seq<nat>, n: nat) {
    && (forall i: nat :: i in order <==> i < n)
    && Distinct(order)
  }

  predicate Distinct(s: seq<nat>) {
    forall i, j :: 0 <= i < j < |s| ==> s[i] != s[j]
  }

  predicate IsHigh(c: Class) { c.High? }

  lemma IndicesList(slow: seq<Choice>, classes: seq<Class>)
    requires StablySorted(slow) && ListsSlow(slow, classes, |classes|)
    ensures Distinct(Indices(slow)) && Lists(Indices(slow), classes, |classes|, IsHigh)
  {
    var mid := Indices(slow);
    forall i: nat ensures i in mid <==> i < |classes| && classes[i].High? {
      if i < |classes| && classes[i].High? {
        assert Choice(i, classes[i].rtt) in slow;
        var k :| 0 <= k < |slow| && slow[k] == Choice(i, classes[i].rtt);
        assert mid[k] == i;
      }
      if i in mid {
        var k :| 0 <= k < |mid| && mid[k] == i;
        assert slow[k] in slow;
      }
    }
    forall i, j | 0 <= i < j < |mid| ensures mid[i] != mid[j] {
      assert slow[i] in slow && slow[j] in slow && Precedes(slow[i], slow[j]);
    }
  }

  lemma ConcatDistinct(a: seq<nat>, b: seq<nat>)
    requires Distinct(a) && Distinct(b) && forall x :: x in a ==> x !in b
    ensures Distinct(a + b)
  {
    var s := a + b;
    forall i, j | 0 <= i < j < |s| ensures s[i] != s[j] {
      assert i < |a| ==> s[i] in a;
      assert j >= |a| ==> s[j] == b[j - |a|] && s[j] in b;
    }
  }

  /** The attempt order is a permutation of the members. */
  lemma AliveOrderIsPermutation(classes: seq<Class>)
    ensures EachOnce(AliveOrder(classes), |classes|)
  {
    var healthy, cooling := HealthyPart(classes), CoolingPart(classes);
    PositionsList(classes, |classes|, IsHealthy);
    PositionsList(classes, |classes|, IsCooling);
    SlowPartLists(classes);
    var mid := Indices(SlowPart(classes));
    IndicesList(SlowPart(classes), classes);
    ConcatDistinct(healthy, mid);
    ConcatDistinct(healthy + mid, cooling);
  }

  /** How the order ranks two members. */
  predicate RankedBefore(classes: seq<Class>, i: nat, j: nat)
    requires i < |classes| && j < |classes|
  {
    match (classes[i], classes[j])
    case (Healthy, Healthy) => i < j
    case (Healthy, _) => true
    case (High(_), Healthy) => false
    case (High(a), High(b)) => a < b || (a == b && i < j)
    case (High(_), Cooling) => true
    case (Cooling, Cooling) => i < j
    case (Cooling, _) => false
  }

  /** Healthy members come first in configuration order, then slow ones by RTT
      with ties in configuration order, then cooling ones in configuration order. */
  lemma AliveOrderRanks(classes: seq<Class>, x: nat, y: nat)
    requires x < y < |AliveOrder(classes)|
    ensures AliveOrder(classes)[x] < |classes| && AliveOrder(classes)[y] < |classes|
    ensures RankedBefore(classes, AliveOrder(classes)[x], AliveOrder(classes)[y])
  {
    AliveOrderPart(classes, x);
    AliveOrderPart(classes, y);
    PositionsList(classes, |classes|, IsHealthy);
    PositionsList(classes, |classes|, IsCooling);
    SlowPartLists(classes);
    var slow := SlowPart(classes);
    var h := |HealthyPart(classes)|;
    if h <= x < y < h + |slow| {
      assert Precedes(slow[x - h], slow[y - h]);
    }
  }

  lemma PositionAt(classes: seq<Class>, n: nat, p: Class -> bool, k: nat)
    requires n <= |classes| && k < |Positions(classes, n, p)|
    ensures var i := Positions(classes, n, p)[k]; i < n && p(classes[i])
  {
    PositionsList(classes, n, p);
    assert Positions(classes, n, p)[k] in Positions(classes, n, p);
  }

  lemma SlowAt(classes: seq<Class>, k: nat)
    requires k < |SlowPart(classes)|
    ensures var c := SlowPart(classes)[k]; c.index < |classes| && classes[c.index] == High(c.rtt)
  {
    SlowPartLists(classes);
    assert SlowPart(classes)[k] in SlowPart(classes);
  }

  /** Which part of the order position x lies in. */
  lemma AliveOrderPart(classes: seq<Class>, x: nat)
    requires x < |AliveOrder(classes)|
    ensures var i := AliveOrder(classes)[x];
      var healthy, slow, cooling := HealthyPart(classes), SlowPart(classes), CoolingPart(classes);
      var a, b := |healthy|, |healthy| + |slow|;
      && i < |classes|
      && (x < a ==> i == healthy[x] && classes[i] == Healthy)
      && (a <= x < b ==> i == slow[x - a].index && classes[i] == High(slow[x - a].rtt))
      && (b <= x ==> i == cooling[x - b] && classes[i] == Cooling)
  {
    var healthy, slow, cooling := HealthyPart(classes), SlowPart(classes), CoolingPart(classes);
    ThreePartsAt(healthy, Indices(slow), cooling, x);
    if x < |healthy| {
      PositionAt(classes, |classes|, IsHealthy, x);
    } else if x < |healthy| + |slow| {
      SlowAt(classes, x - |healthy|);
    } else {
      PositionAt(classes, |classes|, IsCooling, x - |healthy| - |slow|);
    }
  }

  lemma ThreePartsAt<T>(a: seq<T>, b: seq<T>, c: seq<T>, x: nat)
    requires x < |a + b + c|
    ensures x < |a| ==> (a + b + c)[x] == a[x]
    ensures |a| <= x < |a| + |b| ==> (a + b + c)[x] == b[x - |a|]
    ensures |a| + |b| <= x ==> (a + b + c)[x] == c[x - |a| - |b|]
  {}

  // ---- rotation ---------------------------------------------------------------------

  lemma WrapOnce(y: nat, n: nat)
    requires y < n
    ensures y % n == y && (y + n) % n == y
  {}

  function Rotation(start: nat, n: nat): (r: seq<nat>)
    requires start < n
    ensures |r| == n && forall k :: 0 <= k < n ==> r[k] == (start + k) % n
  {
    seq(n, k requires 0 <= k < n => (start + k) % n)
  }

  /** A rotation visits every member exactly once. */
  lemma RotationIsPermutation(start: nat, n: nat)
    requires start < n
    ensures EachOnce(Rotation(start, n), n)
  {
    var order := Rotation(start, n);
    forall k | 0 <= k < n ensures order[k] == if start + k < n then start + k else start + k - n {
      WrapOnce(if start + k < n then start + k else start + k - n, n);
    }
    forall i: nat | i < n ensures i in order {
      var k := if i >= start then i - start else i - start + n;
      assert order[k] == i;
    }
  }

  method Rotate(start: nat, n: nat) returns (order: seq<nat>)
    requires start < n
    ensures order == Rotation(start, n)
  {
    order := [];
    for i := 0 to n
      invariant order == Rotation(start, n)[..i]
    {
      TakeNext(Rotation(start, n), i);
      order := order + [(start + i) % n];
    }
    TakeAll(Rotation(start, n));
  }

  // ---- dialing ------------------------------------------------------------------------

  /** One member's attempt: whether the dial succeeded, whether the caller's context
      had ended by then, and the time it returned. */
  datatype Attempt = Attempt(ok: bool, ended: bool, at: int)

  function NoteOutcome(cfg: Settings, cooldowns: seq<int>, member: nat, a: Attempt): (r: seq<int>)
    requires member < |cooldowns|
    ensures |r| == |cooldowns|
  {
    if cfg.mode != Alive || (!a.ok && cfg.cooldown <= 0) then cooldowns
    else cooldowns[member := if a.ok then 0 else a.at + cfg.cooldown]
  }

  /** The cooldowns after the attempts on these members, in this order. */
  function AfterAttempts(cfg: Settings, cooldowns: seq<int>, members: seq<nat>, attempts: seq<Attempt>): (r: seq<int>)
    requires |members| == |attempts| && Within(members, |cooldowns|)
    ensures |r| == |cooldowns|
  {
    if members == [] then cooldowns
    else
      var k := |members| - 1;
      NoteOutcome(cfg, AfterAttempts(cfg, cooldowns, members[..k], attempts[..k]), members[k], attempts[k])
  }

  /** In alive mode exactly the members tried without success, and no others, enter
      a cooldown, each counted from its own failure. */
  lemma {:induction false} CooldownsFollowOutcomes(cfg: Settings, cooldowns: seq<int>, members: seq<nat>,
        attempts: seq<Attempt>, i: nat)
    requires |members| == |attempts| && Within(members, |cooldowns|)
    requires Distinct(members) && i < |cooldowns| && cfg.mode == Alive && cfg.cooldown > 0
    ensures i !in members ==> AfterAttempts(cfg, cooldowns, members, attempts)[i] == cooldowns[i]
    ensures forall k :: 0 <= k < |members| && members[k] == i ==>
              AfterAttempts(cfg, cooldowns, members, attempts)[i] ==
                (if attempts[k].ok then 0 else attempts[k].at + cfg.cooldown)
  {
    if members != [] {
      var k := |members| - 1;
      CooldownsFollowOutcomes(cfg, cooldowns, members[..k], attempts[..k], i);
    }
  }

  predicate Within(order: seq<nat>, n: nat) {
    forall k :: 0 <= k < |order| ==> order[k] < n
  }

  /** Attempts that all failed while the caller was still waiting. */
  predicate Exhausted(attempts: seq<Attempt>, tried: nat)
    requires tried <= |attempts|
  {
    forall k :: 0 <= k < tried ==> !attempts[k].ok && !attempts[k].ended
  }

  /** What a dial reports after trying the first members of the order: the last one
      tried connected and the earlier ones did not, or none did and either all
      were tried or the caller's context ended at the last. */
  predicate Outcome(chosen: Option<nat>, order: seq<nat>, attempts: seq<Attempt>, tried: nat)
    requires tried <= |order| == |attempts|
  {
    match chosen
    case Some(member) =>
      tried > 0 && member == order[tried - 1] && attempts[tried - 1].ok && Exhausted(attempts, tried - 1)
    case None =>
      || (tried == |order| && Exhausted(attempts, tried))
      || (tried > 0 && attempts[tried - 1].ended && !attempts[tried - 1].ok && Exhausted(attempts, tried - 1))
  }

  class BalancerDialer {
    const cfg: Settings
    const n: nat
    var next: nat
    var cooldowns: seq<int>
    var slowFlags: seq<bool>
    /** Member leases currently held through this balancer. */
    var leases: multiset<nat>

    ghost predicate Valid()
      reads this
    {
      |cooldowns| == n && |slowFlags| == n && next < TWO_64
    }

    constructor (cfg: Settings, n: nat)
      ensures Valid() && this.cfg == cfg && this.n == n && leases == multiset{} && cooldowns == seq(n, _ => 0)
              && slowFlags == seq(n, _ => false)
    {
      this.cfg, this.n, next, leases := cfg, n, 0, multiset{};
      cooldowns := seq(n, _ => 0);
      slowFlags := seq(n, _ => false);
    }

    /** noteHighRTTIfUnhealthy. */
    method NoteHighRtt(i: nat, metric: Option<int>) returns (rtt: int, high: bool)
      requires Valid() && i < n
      modifies this`slowFlags
      ensures slowFlags == old(slowFlags)[i := if cfg.WatchesRtt() then Slow(old(slowFlags[i]), metric, cfg.threshold)
              else old(slowFlags[i])]
      ensures high == (cfg.WatchesRtt() && Slow(old(slowFlags[i]), metric, cfg.threshold))
      ensures high ==> metric == Some(rtt)
    {
      if cfg.mode != Alive || !cfg.failoverOnHighRtt || cfg.threshold <= 0 {
        return 0, false;
      }
      if metric.None? {
        slowFlags := slowFlags[i := false];
        return 0, false;
      }
      rtt := metric.value;
      if slowFlags[i] {
        if rtt > RecoveryThreshold(cfg.threshold) {
          return rtt, true;
        }
        slowFlags := slowFlags[i := false];
        return rtt, false;
      }
      if rtt > cfg.threshold {
        slowFlags := slowFlags[i := true];
        return rtt, true;
      }
      high := false;
    }

    method OrderedAlive(metrics: seq<Option<int>>, now: int) returns (order: seq<nat>)
      requires Valid() && |metrics| == n
      modifies this`slowFlags
      ensures order == AliveOrder(Classes(cfg, cooldowns, old(slowFlags), metrics, now))
      ensures slowFlags == FlagsAfter(cfg, cooldowns, old(slowFlags), metrics, now)
    {
      ghost var was := slowFlags;
      ghost var classes := Classes(cfg, cooldowns, was, metrics, now);
      ghost var flags := FlagsAfter(cfg, cooldowns, was, metrics, now);
      var healthy: seq<nat>, high: seq<Choice>, cooling: seq<nat> := [], [], [];
      for i := 0 to n
        invariant |cooldowns| == |slowFlags| == n
        invariant healthy == Positions(classes, i, IsHealthy)
        invariant high == SlowChoices(classes, i)
        invariant cooling == Positions(classes, i, IsCooling)
        invariant Spliced(slowFlags, flags, was, i)
      {
        if cooldowns[i] > now {
          cooling := cooling + [i];
          continue;
        }
        var rtt, isHigh := NoteHighRtt(i, metrics[i]);
        if isHigh {
          high := high + [Choice(i, rtt)];
          continue;
        }
        healthy := healthy + [i];
      }
      order := healthy + Indices(SortStable(high)) + cooling;
    }

    /** orderedMembers: each member once, whatever the mode. */
    method OrderedMembers(metrics: seq<Option<int>>, now: int) returns (order: seq<nat>)
      requires Valid() && |metrics| == n
      modifies this`next, this`slowFlags
      ensures Valid() && EachOnce(order, n)
      ensures n > 0 && cfg.mode == Alive ==>
              next == old(next) && order == AliveOrder(Classes(cfg, cooldowns, old(slowFlags), metrics, now))
      ensures n > 0 && cfg.mode == RoundRobin ==>
              next == (old(next) + 1) % TWO_64 && order == Rotation(old(next) % n, n)
    {
      if n == 0 {
        return [];
      }
      if cfg.mode == Alive {
        order := OrderedAlive(metrics, now);
        AliveOrderIsPermutation(Classes(cfg, cooldowns, old(slowFlags), metrics, now));
        return;
      }
      var start := next % n;
      next := (next + 1) % TWO_64;
      order := Rotate(start, n);
      RotationIsPermutation(start, n);
    }

    /** DialContext: members are leased one at a time in the attempt order until one
        connects or the caller's context ends. */
    method DialContext(metrics: seq<Option<int>>, now: int, attempts: seq<Attempt>)
      returns (chosen: Option<nat>, order: seq<nat>, tried: nat)
      requires Valid() && |metrics| == n && |attempts| == n
      modifies this`next, this`leases, this`slowFlags, this`cooldowns
      ensures Valid() && EachOnce(order, n) && |order| == n && tried <= n && Within(order, n)
      ensures Outcome(chosen, order, attempts, tried)
      ensures leases == if chosen.Some? then old(leases) + multiset{chosen.value} else old(leases)
      ensures cooldowns == AfterAttempts(cfg, old(cooldowns), order[..tried], attempts[..tried])
    {
      order := OrderedMembers(metrics, now);
      EachOnceLength(order, n);
      chosen, tried := TryInOrder(order, attempts);
    }

    method TryInOrder(order: seq<nat>, attempts: seq<Attempt>) returns (chosen: Option<nat>, tried: nat)
      requires Valid() && |order| == |attempts| && Within(order, n)
      modifies this`leases, this`cooldowns
      ensures tried <= |order| && Outcome(chosen, order, attempts, tried)
      ensures leases == if chosen.Some? then old(leases) + multiset{chosen.value} else old(leases)
      ensures cooldowns == AfterAttempts(cfg, old(cooldowns), order[..tried], attempts[..tried])
    {
      tried := 0;
      while tried < |order|
        invariant tried <= |order| && leases == old(leases)
        invariant Exhausted(attempts, tried)
        invariant cooldowns == AfterAttempts(cfg, old(cooldowns), order[..tried], attempts[..tried])
      {
        var member, a := order[tried], attempts[tried];
        AttemptNext(cfg, old(cooldowns), order, attempts, tried);
        leases := leases + multiset{member};
        tried := tried + 1;
        if a.ok {
          NoteSuccess(member, a);
          return Some(member), tried;
        }
        leases := leases - multiset{member};
        NoteFailure(member, a);
        if a.ended {
          return None, tried;
        }
      }
      return None, tried;
    }

    method NoteFailure(member: nat, a: Attempt)
      requires Valid() && member < n && !a.ok
      modifies this`cooldowns
      ensures cooldowns == NoteOutcome(cfg, old(cooldowns), member, a)
    {
      if cfg.mode == Alive && cfg.cooldown > 0 {
        cooldowns := cooldowns[member := a.at + cfg.cooldown];
      }
    }

    method NoteSuccess(member: nat, ghost a: Attempt)
      requires Valid() && member < n && a.ok
      modifies this`cooldowns
      ensures cooldowns == NoteOutcome(cfg, old(cooldowns), member, a)
    {
      if cfg.mode == Alive {
        cooldowns := cooldowns[member := 0];
      }
    }
  }

  lemma AttemptNext(cfg: Settings, cooldowns: seq<int>, order: seq<nat>, attempts: seq<Attempt>, i: nat)
    requires i < |order| == |attempts| && Within(order, |cooldowns|)
    ensures AfterAttempts(cfg, cooldowns, order[..i + 1], attempts[..i + 1])
         == NoteOutcome(cfg, AfterAttempts(cfg, cooldowns, order[..i], attempts[..i]), order[i], attempts[i])
  {
    TakeNext(order, i);
    TakeNext(attempts, i);
  }

  lemma EachOnceLength(order: seq<nat>, n: nat)
    requires EachOnce(order, n)
    ensures |order| == n && Within(order, n)
  {
    DistinctSize(order, n);
    assert forall k :: 0 <= k < n ==> order[k] in order;
  }

  lemma {:induction false} DistinctSize(order: seq<nat>, n: nat)
    requires Distinct(order) && forall i: nat :: i in order <==> i < n
    ensures |order| == n
  {
    if n == 0 {
      assert forall k :: 0 <= k < |order| ==> order[k] in order;
    } else {
      assert n - 1 in order;
      var k :| 0 <= k < |order| && order[k] == n - 1;
      var rest := order[..k] + order[k + 1..];
      forall i: nat ensures i in rest <==> i < n - 1 {
        if i in rest {
          var j :| 0 <= j < |rest| && rest[j] == i;
          var m := if j < k then j else j + 1;
          assert order[m] == i && order[m] in order;
          assert order[m] != order[k];
        }
        if i < n - 1 {
          assert i in order;
          var j :| 0 <= j < |order| && order[j] == i;
          assert i == rest[if j < k then j else j - 1];
        }
      }
      DistinctSize(rest, n - 1);
    }
  }
}

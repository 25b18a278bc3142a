/** Per-target dial admission: gates that are created on demand, deleted when idle
    and recreated, and waiters that block on a gate's change channel or on a
    cooldown timer (internal/tunengine/dialer_native.go). Times are milliseconds;
    0 is the zero time. */
module TargetGates {
  import opened Options

  const MAX_CONCURRENT_PER_TARGET := 6
  const FAILURES_BEFORE_COOLDOWN := 3
  const NOISY_WINDOW := 10000
  const NOISY_THRESHOLD := 10
  const NOISY_COOLDOWN := 750

  datatype Gate = Gate(inFlight: int, cooldownUntil: nat, failures: nat, changed: nat, recentOpens: nat,
    windowStart: nat) {
    predicate Admits(now: nat) {
      inFlight < MAX_CONCURRENT_PER_TARGET && now >= cooldownUntil
    }

    predicate WindowStale(now: int) {
      windowStart == 0 || now - windowStart >= NOISY_WINDOW
    }

    predicate Noisy(now: nat) {
      windowStart != 0 && now - windowStart < NOISY_WINDOW && recentOpens > NOISY_THRESHOLD
    }

    function NoteOpen(now: nat): Gate {
      if WindowStale(now) then this.(windowStart := now, recentOpens := 1)
      else this.(recentOpens := recentOpens + 1)
    }

    predicate Reapable(now: nat) {
      inFlight == 0 && now > cooldownUntil && WindowStale(now)
    }
  }

  datatype Config = Config(cooldown: int, cooldownMax: int) {
    predicate GatesEnabled() { cooldown != 0 }

    function FailureCooldown(): int {
      if cooldown <= 0 then 0
      else if cooldownMax > 0 && cooldown > cooldownMax then cooldownMax
      else cooldown
    }
  }

  /** The gate map, and which channels exist and are closed. Channel ids below
      `nextChan` have been made. */
  datatype Table = Table(gates: map<string, Gate>, closed: set<nat>, nextChan: nat)

  /** Look the gate up, making one when there is none. */
  function WithGate(t: Table, target: string): (r: Table)
    ensures target in r.gates
  {
    if target in t.gates then t
    else Table(t.gates[target := Gate(0, 0, 0, t.nextChan, 0, 0)], t.closed, t.nextChan + 1)
  }

  /** One pass of the acquire loop under the lock: admit, or leave the table for
      the caller to wait on. */
  function AcquirePass(t: Table, target: string, now: nat): Table {
    var r := WithGate(t, target);
    var g := r.gates[target];
    if g.Admits(now) then r.(gates := r.gates[target := g.(inFlight := g.inFlight + 1).NoteOpen(now)]) else r
  }

  predicate Admissible(t: Table, target: string, now: nat) {
    target in t.gates ==> t.gates[target].Admits(now)
  }

  /** The gate as a release leaves it, before its channel is replaced. */
  function Released(g: Gate, cfg: Config, success: bool, now: nat): Gate {
    var landed := if g.inFlight > 0 then g.(inFlight := g.inFlight - 1) else g;
    if success then
      landed.(failures := 0, cooldownUntil := if cfg.cooldown > 0 && g.Noisy(now) then now + NOISY_COOLDOWN else 0)
    else
      var failed := landed.(failures := g.failures + 1);
      if failed.failures >= FAILURES_BEFORE_COOLDOWN then
        failed.(cooldownUntil := if cfg.FailureCooldown() > 0 then now + cfg.FailureCooldown() else 0)
      else failed
  }

  function ReleaseGate(t: Table, cfg: Config, target: string, success: bool, now: nat): Table {
    if target !in t.gates then t
    else
      var g := Released(t.gates[target], cfg, success, now);
      var closed := t.closed + {g.changed};
      if g.inFlight == 0 && g.cooldownUntil == 0 && g.WindowStale(now)
      then Table(t.gates - {target}, closed, t.nextChan + 1)
      else Table(t.gates[target := g.(changed := t.nextChan)], closed, t.nextChan + 1)
  }

  function Reap(t: Table, now: nat): Table {
    t.(gates := map k | k in t.gates && !t.gates[k].Reapable(now) :: t.gates[k])
  }

  /** The dialer's gate fields, with one method per critical section. */
  class Gatekeeper {
    const cfg: Config
    var gates: map<string, Gate>
    var closed: set<nat>
    var nextChan: nat

    function Contents(): Table
      reads this
    {
      Table(gates, closed, nextChan)
    }

    constructor (cfg: Config)
      ensures this.cfg == cfg && Contents() == Table(map[], {}, 0)
    {
      this.cfg, gates, closed, nextChan := cfg, map[], {}, 0;
    }

    /** Admission, or what to wait for: the gate's channel, and its cooldown when
        one is running. */
    method TryAcquire(target: string, now: nat) returns (granted: bool, changed: nat, timer: Option<nat>)
      requires cfg.GatesEnabled()
      modifies this
      ensures Contents() == AcquirePass(old(Contents()), target, now)
      ensures granted <==> Admissible(WithGate(old(Contents()), target), target, now)
      ensures !granted ==> changed == gates[target].changed
      ensures !granted ==> timer == if now < gates[target].cooldownUntil
              then Some(gates[target].cooldownUntil) else None
    {
      if target !in gates {
        gates := gates[target := Gate(0, 0, 0, nextChan, 0, 0)];
        nextChan := nextChan + 1;
      }
      var g := gates[target];
      granted, changed, timer := false, g.changed, None;
      if g.inFlight < MAX_CONCURRENT_PER_TARGET && !(now < g.cooldownUntil) {
        gates := gates[target := g.(inFlight := g.inFlight + 1).NoteOpen(now)];
        granted := true;
        return;
      }
      if now < g.cooldownUntil {
        timer := Some(g.cooldownUntil);
      }
    }

    method Release(target: string, success: bool, now: nat)
      modifies this
      ensures Contents() == if cfg.GatesEnabled() then ReleaseGate(old(Contents()), cfg, target, success, now)
              else old(Contents())
    {
      if !cfg.GatesEnabled() {
        return;
      }
      if target !in gates {
        return;
      }
      var g := gates[target];
      if g.inFlight > 0 {
        g := g.(inFlight := g.inFlight - 1);
      }
      if success {
        g := g.(failures := 0);
        if cfg.cooldown > 0 && g.Noisy(now) {
          g := g.(cooldownUntil := now + NOISY_COOLDOWN);
        } else {
          g := g.(cooldownUntil := 0);
        }
      } else {
        g := g.(failures := g.failures + 1);
        if g.failures >= FAILURES_BEFORE_COOLDOWN {
          var cooldown := cfg.FailureCooldown();
          if cooldown > 0 {
            g := g.(cooldownUntil := now + cooldown);
          } else {
            g := g.(cooldownUntil := 0);
          }
        }
      }
      closed := closed + {g.changed};
      g := g.(changed := nextChan);
      nextChan := nextChan + 1;
      gates := gates[target := g];
      if g.inFlight == 0 && g.cooldownUntil == 0 && g.WindowStale(now) {
        gates := gates - {target};
        assert gates == old(gates) - {target};
      }
    }

    method ReapStale(now: nat)
      modifies this
      ensures Contents() == if cfg.GatesEnabled() then Reap(old(Contents()), now) else old(Contents())
    {
      if !cfg.GatesEnabled() {
        return;
      }
      var todo := gates.Keys;
      while todo != {}
        invariant todo <= gates.Keys <= old(gates).Keys
        invariant forall k :: k in gates ==> gates[k] == old(gates)[k]
        invariant forall k :: k in old(gates) && k !in todo ==> (k in gates <==> !old(gates)[k].Reapable(now))
        invariant closed == old(closed) && nextChan == old(nextChan)
        decreases todo
      {
        var target :| target in todo;
        if gates[target].Reapable(now) {
          gates := gates - {target};
        }
        todo := todo - {target};
      }
      assert gates == Reap(old(Contents()), now).gates;
    }
  }

  // ---- the system: dials, waiters and the clock -----------------------------------

  /** A dial blocked in the acquire loop: the channel it captured, and the timer it
      armed when a cooldown was running. */
  datatype Waiter = Waiter(target: string, changed: nat, timer: Option<nat>)

  /** What the run has seen beside the table: admissions not yet released, the
      outcomes of past releases and the times of past grants, per target. */
  datatype State = State(
    table: Table, now: nat, waiters: seq<Waiter>,
    held: map<string, nat>, outcomes: map<string, seq<bool>>, grants: map<string, seq<nat>>)

  const START := State(Table(map[], {}, 0), 1, [], map[], map[], map[])

  /** Reaping reads the clock before it takes the lock, so it may use an older
      time. */
  datatype Step =
    | Tick(to: nat)
    | Acquire(target: string)
    | Wake(waiter: nat)
    | Finish(target: string, success: bool)
    | ReapStep(seen: nat)

  function Held(s: State, target: string): nat {
    if target in s.held then s.held[target] else 0
  }

  function InFlight(s: State, target: string): int {
    if target in s.table.gates then s.table.gates[target].inFlight else 0
  }

  function Outcomes(s: State, target: string): seq<bool> {
    if target in s.outcomes then s.outcomes[target] else []
  }

  function Grants(s: State, target: string): seq<nat> {
    if target in s.grants then s.grants[target] else []
  }

  predicate Woken(s: State, w: Waiter) {
    w.changed in s.table.closed || (w.timer.Some? && s.now >= w.timer.value)
  }

  predicate Enabled(s: State, step: Step) {
    match step
    case Tick(to) => to >= s.now
    case Acquire(_) => true
    case Wake(i) => i < |s.waiters|
    case Finish(target, _) => Held(s, target) > 0
    case ReapStep(seen) => seen <= s.now
  }

  function Next(s: State, cfg: Config, step: Step): State
    requires Enabled(s, step)
  {
    match step
    case Tick(to) => s.(now := to)
    case Acquire(target) =>
      var table := AcquirePass(s.table, target, s.now);
      if Admissible(WithGate(s.table, target), target, s.now) then
        s.(table := table, held := s.held[target := Held(s, target) + 1],
          grants := s.grants[target := Grants(s, target) + [s.now]])
      else
        var g := table.gates[target];
        s.(table := table, waiters := s.waiters
          + [Waiter(target, g.changed, if s.now < g.cooldownUntil then Some(g.cooldownUntil) else None)])
    case Wake(i) => s.(waiters := s.waiters[..i] + s.waiters[i + 1..])
    case Finish(target, success) =>
      s.(table := ReleaseGate(s.table, cfg, target, success, s.now), held := s.held[target := Held(s, target) - 1],
         outcomes := s.outcomes[target := Outcomes(s, target) + [success]])
    case ReapStep(seen) => s.(table := Reap(s.table, seen))
  }

  function Run(s: State, cfg: Config, steps: seq<Step>): State
    decreases steps
  {
    if steps == [] then s else Run(if Enabled(s, steps[0]) then Next(s, cfg, steps[0]) else s, cfg, steps[1..])
  }

  // ---- invariants --------------------------------------------------------------------

  /** How many of the latest outcomes were failures. */
  function TrailingFailures(outcomes: seq<bool>): nat {
    if outcomes == [] || outcomes[|outcomes| - 1] then 0 else 1 + TrailingFailures(outcomes[..|outcomes| - 1])
  }

  /** How many grants were made at or after a time. */
  function GrantsSince(grants: seq<nat>, from: nat): nat {
    if grants == [] then 0
    else GrantsSince(grants[..|grants| - 1], from) + if grants[|grants| - 1] >= from then 1 else 0
  }

  predicate Conserved(s: State, target: string) {
    InFlight(s, target) == Held(s, target) <= MAX_CONCURRENT_PER_TARGET
  }

  /** A gate's counters never claim more than its history shows. */
  predicate GateBounded(g: Gate, outcomes: seq<bool>, grants: seq<nat>, now: nat) {
    && g.failures <= TrailingFailures(outcomes)
    && (g.windowStart != 0 ==> g.recentOpens <= GrantsSince(grants, g.windowStart))
    && g.windowStart <= now
  }

  predicate CountsBounded(s: State, target: string)
    requires target in s.table.gates
  {
    GateBounded(s.table.gates[target], Outcomes(s, target), Grants(s, target), s.now)
  }

  /** Every gate has its own channel, and it is still open. */
  predicate ChannelsOpen(t: Table) {
    && (forall c :: c in t.closed ==> c < t.nextChan)
    && (forall k :: k in t.gates ==> t.gates[k].changed < t.nextChan && t.gates[k].changed !in t.closed)
    && (forall k, l :: k in t.gates && l in t.gates && k != l ==> t.gates[k].changed != t.gates[l].changed)
  }

  /** A blocked waiter is woken, or its channel is still the gate's and the gate
      does not admit: it is full, or cooling down until the waiter's timer. */
  predicate WaiterCovered(s: State, w: Waiter) {
    || Woken(s, w)
    || (&& w.target in s.table.gates && s.table.gates[w.target].changed == w.changed
        && var g := s.table.gates[w.target];
           (g.inFlight >= MAX_CONCURRENT_PER_TARGET || (s.now < g.cooldownUntil && w.timer == Some(g.cooldownUntil))))
  }

  ghost predicate Inv(s: State) {
    && s.now > 0
    && (forall t :: Conserved(s, t))
    && ChannelsOpen(s.table)
    && (forall t :: t in s.table.gates ==> CountsBounded(s, t))
    && AllCovered(s)
  }

  predicate AllCovered(s: State) {
    forall i :: 0 <= i < |s.waiters| ==> WaiterCovered(s, s.waiters[i])
  }

  lemma {:induction false} LaterGrants(grants: seq<nat>, from: nat, later: nat)
    requires later >= from
    ensures GrantsSince(grants, later) <= GrantsSince(grants, from)
  {
    if grants != [] {
      LaterGrants(grants[..|grants| - 1], from, later);
    }
  }

  lemma AcquireKeepsChannels(t: Table, target: string, now: nat)
    requires ChannelsOpen(t)
    ensures ChannelsOpen(AcquirePass(t, target, now))
  {}

  lemma ReleaseKeepsChannels(t: Table, cfg: Config, target: string, success: bool, now: nat)
    requires ChannelsOpen(t)
    ensures ChannelsOpen(ReleaseGate(t, cfg, target, success, now))
  {}

  lemma NextConserves(s: State, cfg: Config, step: Step, t: string)
    requires Enabled(s, step) && Conserved(s, t)
    ensures Conserved(Next(s, cfg, step), t)
  {}

  lemma OpenBounded(g: Gate, outcomes: seq<bool>, grants: seq<nat>, now: nat)
    requires now > 0 && GateBounded(g, outcomes, grants, now)
    ensures GateBounded(g.(inFlight := g.inFlight + 1).NoteOpen(now), outcomes, grants + [now], now)
  {
    assert (grants + [now])[..|grants|] == grants;
  }

  lemma ReleaseBounded(g: Gate, cfg: Config, success: bool, outcomes: seq<bool>, grants: seq<nat>, now: nat)
    requires GateBounded(g, outcomes, grants, now)
    ensures GateBounded(Released(g, cfg, success, now), outcomes + [success], grants, now)
  {
    assert (outcomes + [success])[..|outcomes|] == outcomes;
  }

  lemma AcquireCounts(s: State, cfg: Config, target: string, t: string)
    requires s.now > 0 && t in Next(s, cfg, Acquire(target)).table.gates
    requires t in s.table.gates ==> CountsBounded(s, t)
    ensures CountsBounded(Next(s, cfg, Acquire(target)), t)
  {
    var n, g := Next(s, cfg, Acquire(target)), WithGate(s.table, target).gates[target];
    assert Outcomes(n, t) == Outcomes(s, t);
    if t != target {
      assert n.table.gates[t] == s.table.gates[t] && Grants(n, t) == Grants(s, t);
    } else if g.Admits(s.now) {
      assert n.table.gates[t] == g.(inFlight := g.inFlight + 1).NoteOpen(s.now)
        && Grants(n, t) == Grants(s, t) + [s.now];
      OpenBounded(g, Outcomes(s, t), Grants(s, t), s.now);
    } else {
      assert n.table.gates[t] == g && Grants(n, t) == Grants(s, t);
    }
  }

  lemma ReleaseCounts(s: State, cfg: Config, target: string, success: bool, t: string)
    requires Held(s, target) > 0 && t in Next(s, cfg, Finish(target, success)).table.gates
    requires t in s.table.gates ==> CountsBounded(s, t)
    ensures CountsBounded(Next(s, cfg, Finish(target, success)), t)
  {
    var n := Next(s, cfg, Finish(target, success));
    assert Grants(n, t) == Grants(s, t) && n.now == s.now;
    if t == target {
      assert Outcomes(n, t) == Outcomes(s, t) + [success];
      ReleaseBounded(s.table.gates[target], cfg, success, Outcomes(s, target), Grants(s, target), s.now);
    } else {
      assert n.table.gates[t] == s.table.gates[t] && Outcomes(n, t) == Outcomes(s, t);
    }
  }

  lemma NextCounts(s: State, cfg: Config, step: Step, t: string)
    requires s.now > 0 && Enabled(s, step) && t in Next(s, cfg, step).table.gates
    requires t in s.table.gates ==> CountsBounded(s, t)
    ensures CountsBounded(Next(s, cfg, step), t)
  {
    match step
    case Acquire(target) => AcquireCounts(s, cfg, target, t);
    case Finish(target, success) => ReleaseCounts(s, cfg, target, success, t);
    case _ =>
  }

  /** A waiter that stays blocked stays covered; a release of its gate wakes it,
      and reaping only takes gates whose timer has run out. */
  lemma NextCovers(s: State, cfg: Config, step: Step, w: Waiter)
    requires Enabled(s, step) && WaiterCovered(s, w)
    ensures WaiterCovered(Next(s, cfg, step), w)
  {}

  lemma BlockedIsCovered(s: State, cfg: Config, target: string)
    requires !Admissible(WithGate(s.table, target), target, s.now)
    ensures var n := Next(s, cfg, Acquire(target));
            |n.waiters| == |s.waiters| + 1 && WaiterCovered(n, n.waiters[|s.waiters|])
  {}

  lemma NextKeepsChannels(s: State, cfg: Config, step: Step)
    requires Enabled(s, step) && ChannelsOpen(s.table)
    ensures ChannelsOpen(Next(s, cfg, step).table)
  {
    match step
    case Acquire(target) => AcquireKeepsChannels(s.table, target, s.now);
    case Finish(target, success) => ReleaseKeepsChannels(s.table, cfg, target, success, s.now);
    case _ =>
  }

  lemma NextKeepsWaiters(s: State, cfg: Config, step: Step)
    requires Enabled(s, step) && AllCovered(s)
    ensures AllCovered(Next(s, cfg, step))
  {
    var n := Next(s, cfg, step);
    forall i | 0 <= i < |s.waiters| ensures WaiterCovered(n, s.waiters[i]) {
      NextCovers(s, cfg, step, s.waiters[i]);
    }
    match step
    case Acquire(target) =>
      if !Admissible(WithGate(s.table, target), target, s.now) {
        BlockedIsCovered(s, cfg, target);
      }
    case _ =>
  }

  lemma NextKeepsInv(s: State, cfg: Config, step: Step)
    requires Inv(s) && Enabled(s, step)
    ensures Inv(Next(s, cfg, step))
  {
    var n := Next(s, cfg, step);
    NextKeepsChannels(s, cfg, step);
    NextKeepsWaiters(s, cfg, step);
    forall t ensures Conserved(n, t) {
      assert Conserved(s, t);
      NextConserves(s, cfg, step, t);
    }
    forall t | t in n.table.gates ensures CountsBounded(n, t) {
      NextCounts(s, cfg, step, t);
    }
  }

  lemma {:induction false} RunKeepsInv(s: State, cfg: Config, steps: seq<Step>)
    requires Inv(s)
    ensures Inv(Run(s, cfg, steps))
    decreases steps
  {
    if steps != [] {
      if Enabled(s, steps[0]) {
        NextKeepsInv(s, cfg, steps[0]);
      }
      RunKeepsInv(if Enabled(s, steps[0]) then Next(s, cfg, steps[0]) else s, cfg, steps[1..]);
    }
  }

  // ---- what every run guarantees ---------------------------------------------------------

  /** A target's gate counts exactly its outstanding admissions, never more than
      six; a deleted gate leaves none behind. */
  lemma AdmissionsConserved(cfg: Config, steps: seq<Step>, target: string)
    ensures var s := Run(START, cfg, steps);
            InFlight(s, target) == Held(s, target) <= MAX_CONCURRENT_PER_TARGET
  {
    RunKeepsInv(START, cfg, steps);
    assert Conserved(Run(START, cfg, steps), target);
  }

  /** No lost wake-up: when a target is admissible, every dial blocked on it has
      been signalled or its timer has expired. */
  lemma NoLostWakeup(cfg: Config, steps: seq<Step>, i: nat)
    requires i < |Run(START, cfg, steps).waiters|
    ensures var s := Run(START, cfg, steps);
            Admissible(s.table, s.waiters[i].target, s.now) ==> Woken(s, s.waiters[i])
  {
    RunKeepsInv(START, cfg, steps);
    var s := Run(START, cfg, steps);
    assert WaiterCovered(s, s.waiters[i]);
  }

  /** A failed release starts a cooldown only as the third failure in a row for
      that target. */
  lemma FailureCooldownNeedsThree(cfg: Config, steps: seq<Step>, target: string)
    requires Held(Run(START, cfg, steps), target) > 0
    ensures var s := Run(START, cfg, steps);
            var n := Next(s, cfg, Finish(target, false));
            target in n.table.gates && target in s.table.gates
              && n.table.gates[target].cooldownUntil != s.table.gates[target].cooldownUntil ==>
              var outcomes := Outcomes(n, target);
              && |outcomes| >= 3
              && !outcomes[|outcomes| - 1] && !outcomes[|outcomes| - 2] && !outcomes[|outcomes| - 3]
  {
    RunKeepsInv(START, cfg, steps);
    var s := Run(START, cfg, steps);
    var before := Outcomes(s, target);
    if target in s.table.gates {
      assert CountsBounded(s, target);
      if s.table.gates[target].failures >= 2 {
        assert TrailingFailures(before) >= 2;
        assert TrailingFailures(before[..|before| - 1]) >= 1;
      }
    }
  }

  /** A successful release starts a cooldown only when more than ten opens were
      granted to that target within the last ten seconds. */
  lemma NoisyCooldownNeedsBurst(cfg: Config, steps: seq<Step>, target: string)
    requires Held(Run(START, cfg, steps), target) > 0
    ensures var s := Run(START, cfg, steps);
            var n := Next(s, cfg, Finish(target, true));
            target in n.table.gates && n.table.gates[target].cooldownUntil != 0 ==>
              GrantsSince(Grants(s, target), if s.now < NOISY_WINDOW then 0
                else s.now - NOISY_WINDOW + 1) > NOISY_THRESHOLD
  {
    RunKeepsInv(START, cfg, steps);
    var s := Run(START, cfg, steps);
    assert Conserved(s, target);
    assert CountsBounded(s, target);
    var g := s.table.gates[target];
    if g.Noisy(s.now) {
      LaterGrants(Grants(s, target), if s.now < NOISY_WINDOW then 0 else s.now - NOISY_WINDOW + 1, g.windowStart);
    }
  }
}

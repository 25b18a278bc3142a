/** DialContext as a protocol: concurrent dials take and give back a target
    admission, an active slot and an open slot, hand the active slot over to the
    connection, and record one outcome each
    (internal/tunengine/dialer_native.go). Every statement that can interleave
    with other dials is a step. */
module DialProtocol {
  import opened Options
  import opened Sequences

  const MAX_ATTEMPTS := 6

  /** Where a dial is. Unwinding runs the deferred releases, last one first. */
  datatype Stage =
    | AwaitRecovery | AwaitGate | AwaitSlot | AwaitPace | AwaitOpen
    | Dialing(attempt: nat) | Unwinding | Recording | Finished

  /** What a dial holds right now. `ok` is targetOK, `admitted` says that it passed
      the recovery wait, `records` counts the outcomes it has recorded. */
  datatype Dial = Dial(target: string, stage: Stage, gate: bool, slot: bool, open: bool, ok: bool,
    admitted: bool, records: nat)

  /** A connection owns its active slot until the first Close. */
  datatype Conn = Conn(released: bool, registered: bool)

  /** Capacities are None when the limit is disabled. `gates` counts the
      admissions that the target gates regard as outstanding. */
  datatype State = State(
    dials: seq<Dial>, conns: seq<Conn>, slotCap: Option<nat>, slotsUsed: int,
    openCap: Option<nat>, openUsed: int, gates: map<string, int>, outcomes: seq<bool>)

  function Start(slotCap: Option<nat>, openCap: Option<nat>): State {
    State([], [], slotCap, 0, openCap, 0, map[], [])
  }

  datatype Step =
    | Begin(target: string)
    | PassRecovery(d: nat) | GiveUpRecovery(d: nat)
    | GateGranted(d: nat) | GateDenied(d: nat)
    | SlotGranted(d: nat) | PaceGranted(d: nat) | OpenGranted(d: nat)
    | Abort(d: nat)
    | AttemptOk(d: nat) | AttemptTransient(d: nat) | AttemptHard(d: nat)
    | Unwind(d: nat) | Record(d: nat)
    | CloseConn(c: nat) | Unregister(c: nat)

  function GateCount(s: State, target: string): int {
    if target in s.gates then s.gates[target] else 0
  }

  predicate AtStage(s: State, d: nat, stage: Stage) {
    d < |s.dials| && s.dials[d].stage == stage
  }

  predicate IsDialing(s: State, d: nat) {
    d < |s.dials| && s.dials[d].stage.Dialing?
  }

  /** A send on a buffered channel proceeds while there is room. */
  predicate Room(cap: Option<nat>, used: int) {
    cap.None? || used < cap.value
  }

  predicate Enabled(s: State, step: Step) {
    match step
    case Begin(_) => true
    case PassRecovery(d) => AtStage(s, d, AwaitRecovery)
    case GiveUpRecovery(d) => AtStage(s, d, AwaitRecovery)
    case GateGranted(d) => AtStage(s, d, AwaitGate)
    case GateDenied(d) => AtStage(s, d, AwaitGate)
    case SlotGranted(d) => AtStage(s, d, AwaitSlot) && Room(s.slotCap, s.slotsUsed)
    case PaceGranted(d) => AtStage(s, d, AwaitPace)
    case OpenGranted(d) => AtStage(s, d, AwaitOpen) && Room(s.openCap, s.openUsed)
    case Abort(d) => AtStage(s, d, AwaitSlot) || AtStage(s, d, AwaitPace) || AtStage(s, d, AwaitOpen) || IsDialing(s, d)
    case AttemptOk(d) => IsDialing(s, d)
    case AttemptTransient(d) => IsDialing(s, d)
    case AttemptHard(d) => IsDialing(s, d)
    case Unwind(d) => AtStage(s, d, Unwinding)
    case Record(d) => AtStage(s, d, Recording)
    case CloseConn(c) => c < |s.conns|
    case Unregister(c) => c < |s.conns| && s.conns[c].released
  }

  function With(s: State, d: nat, dial: Dial): State
    requires d < |s.dials|
  {
    s.(dials := s.dials[d := dial])
  }

  /** The deferred calls in reverse order: open slot, active slot unless it was
      handed over, then the target gate. */
  function UnwindStep(s: State, d: nat): State
    requires d < |s.dials|
  {
    var dial := s.dials[d];
    if dial.open then With(s, d, dial.(open := false)).(openUsed := s.openUsed - 1)
    else if dial.slot then With(s, d, dial.(slot := false)).(slotsUsed := s.slotsUsed - 1)
    else With(s, d, dial.(gate := false, stage := Recording))
      .(gates := s.gates[dial.target := GateCount(s, dial.target) - 1])
  }

  function Next(s: State, step: Step): State
    requires Enabled(s, step)
  {
    match step
    case Begin(target) => s.(dials := s.dials + [Dial(target, AwaitRecovery, false, false, false, false, false, 0)])
    case PassRecovery(d) => With(s, d, s.dials[d].(stage := AwaitGate, admitted := true))
    case GiveUpRecovery(d) => With(s, d, s.dials[d].(stage := Finished))
    case GateGranted(d) =>
      var target := s.dials[d].target;
      With(s, d, s.dials[d].(stage := AwaitSlot, gate := true)).(gates := s.gates[target := GateCount(s, target) + 1])
    case GateDenied(d) => With(s, d, s.dials[d].(stage := Recording))
    case SlotGranted(d) =>
      With(s, d, s.dials[d].(stage := AwaitPace, slot := true)).(slotsUsed := s.slotsUsed + 1)
    case PaceGranted(d) => With(s, d, s.dials[d].(stage := AwaitOpen))
    case OpenGranted(d) =>
      With(s, d, s.dials[d].(stage := Dialing(0), open := true)).(openUsed := s.openUsed + 1)
    case Abort(d) => With(s, d, s.dials[d].(stage := Unwinding))
    case AttemptOk(d) =>
      With(s, d, s.dials[d].(stage := Unwinding, ok := true, slot := false)).(conns := s.conns + [Conn(false, true)])
    case AttemptTransient(d) =>
      var attempt := s.dials[d].stage.attempt;
      With(s, d, s.dials[d].(stage := if attempt + 1 < MAX_ATTEMPTS then Dialing(attempt + 1) else Unwinding))
    case AttemptHard(d) => With(s, d, s.dials[d].(stage := Unwinding))
    case Unwind(d) => UnwindStep(s, d)
    case Record(d) =>
      With(s, d, s.dials[d].(stage := Finished, records := s.dials[d].records + 1))
        .(outcomes := s.outcomes + [s.dials[d].ok])
    case CloseConn(c) =>
      if s.conns[c].released then s
      else s.(conns := s.conns[c := s.conns[c].(released := true)], slotsUsed := s.slotsUsed - 1)
    case Unregister(c) => s.(conns := s.conns[c := s.conns[c].(registered := false)])
  }

  function Run(s: State, steps: seq<Step>): State
    decreases steps
  {
    if steps == [] then s else Run(if Enabled(s, steps[0]) then Next(s, steps[0]) else s, steps[1..])
  }

  // ---- invariants --------------------------------------------------------------------

  /** What a dial holds is fixed by where it is. */
  predicate Shaped(d: Dial) {
    match d.stage
    case AwaitRecovery => !d.gate && !d.slot && !d.open && !d.ok && !d.admitted && d.records == 0
    case AwaitGate => !d.gate && !d.slot && !d.open && !d.ok && d.admitted && d.records == 0
    case AwaitSlot => d.gate && !d.slot && !d.open && !d.ok && d.admitted && d.records == 0
    case AwaitPace => d.gate && d.slot && !d.open && !d.ok && d.admitted && d.records == 0
    case AwaitOpen => d.gate && d.slot && !d.open && !d.ok && d.admitted && d.records == 0
    case Dialing(k) => d.gate && d.slot && d.open && !d.ok && d.admitted && d.records == 0 && k < MAX_ATTEMPTS
    case Unwinding => d.gate && d.admitted && d.records == 0 && (d.ok ==> !d.slot)
    case Recording => !d.gate && !d.slot && !d.open && d.admitted && d.records == 0
    case Finished => !d.gate && !d.slot && !d.open && (d.ok ==> d.admitted) && d.records == if d.admitted then 1 else 0
  }

  function HoldsSlot(): Dial -> bool { (d: Dial) => d.slot }
  function HoldsOpen(): Dial -> bool { (d: Dial) => d.open }
  function HoldsGate(target: string): Dial -> bool { (d: Dial) => d.gate && d.target == target }
  function Admitted(): Dial -> bool { (d: Dial) => d.admitted }
  function Recorded(): Dial -> bool { (d: Dial) => d.records > 0 }
  function Succeeded(): Dial -> bool { (d: Dial) => d.ok }
  function RecordedSuccess(): Dial -> bool { (d: Dial) => d.records > 0 && d.ok }
  function IsSuccess(): bool -> bool { (b: bool) => b }
  function OwnsSlot(): Conn -> bool { (c: Conn) => !c.released }

  ghost predicate Inv(s: State) {
    && (forall d :: 0 <= d < |s.dials| ==> Shaped(s.dials[d]))
    && (forall c :: 0 <= c < |s.conns| && !s.conns[c].released ==> s.conns[c].registered)
    && s.slotsUsed == Count(s.dials, HoldsSlot()) + Count(s.conns, OwnsSlot())
    && s.openUsed == Count(s.dials, HoldsOpen())
    && GatesCounted(s)
    && |s.outcomes| == Count(s.dials, Recorded())
    && Count(s.outcomes, IsSuccess()) == Count(s.dials, RecordedSuccess())
    && |s.conns| == Count(s.dials, Succeeded())
    && (s.slotCap.Some? ==> s.slotsUsed <= s.slotCap.value)
    && (s.openCap.Some? ==> s.openUsed <= s.openCap.value)
  }

  /** Replacing one dial moves each count by what that dial's part changed. */
  lemma DialChanged(s: State, d: nat, dial: Dial)
    requires d < |s.dials|
    ensures var n := s.dials[d := dial];
            && Count(n, Succeeded()) == Count(s.dials, Succeeded()) - One(s.dials[d].ok) + One(dial.ok)
            && Count(n, RecordedSuccess()) == Count(s.dials, RecordedSuccess())
                 - One(s.dials[d].records > 0 && s.dials[d].ok) + One(dial.records > 0 && dial.ok)
            && Count(n, HoldsSlot()) == Count(s.dials, HoldsSlot()) - One(s.dials[d].slot) + One(dial.slot)
            && Count(n, HoldsOpen()) == Count(s.dials, HoldsOpen()) - One(s.dials[d].open) + One(dial.open)
            && Count(n, Recorded()) == Count(s.dials, Recorded()) - One(s.dials[d].records > 0) + One(dial.records > 0)
  {
    CountUpdate(s.dials, d, dial, HoldsSlot());
    CountUpdate(s.dials, d, dial, HoldsOpen());
    CountUpdate(s.dials, d, dial, Recorded());
    CountUpdate(s.dials, d, dial, Succeeded());
    CountUpdate(s.dials, d, dial, RecordedSuccess());
  }

  lemma GateChanged(s: State, d: nat, dial: Dial, t: string)
    requires d < |s.dials| && dial.target == s.dials[d].target
    ensures Count(s.dials[d := dial], HoldsGate(t)) == Count(s.dials, HoldsGate(t))
              - One(s.dials[d].gate && t == dial.target) + One(dial.gate && t == dial.target)
  {
    CountUpdate(s.dials, d, dial, HoldsGate(t));
  }

  /** What a step that only changes dial d may change beside it. */
  ghost predicate AccountsFor(s: State, n: State, d: nat, dial: Dial)
    requires d < |s.dials|
  {
    && n.dials == s.dials[d := dial] && dial.target == s.dials[d].target && dial.ok == s.dials[d].ok
    && n.conns == s.conns && n.slotCap == s.slotCap && n.openCap == s.openCap
    && n.slotsUsed - s.slotsUsed == One(dial.slot) - One(s.dials[d].slot)
    && n.openUsed - s.openUsed == One(dial.open) - One(s.dials[d].open)
    && (if dial.records > 0 && s.dials[d].records == 0 then n.outcomes == s.outcomes + [dial.ok]
        else n.outcomes == s.outcomes && (dial.records > 0 <==> s.dials[d].records > 0))
    && (n.slotsUsed > s.slotsUsed ==> Room(s.slotCap, s.slotsUsed))
    && (n.openUsed > s.openUsed ==> Room(s.openCap, s.openUsed))
  }

  ghost predicate GatesFollow(s: State, n: State, d: nat, dial: Dial)
    requires d < |s.dials|
  {
    forall t :: GateCount(n, t) - GateCount(s, t) ==
      if t == dial.target then One(dial.gate) - One(s.dials[d].gate) else 0
  }

  ghost predicate GatesCounted(s: State) {
    forall t :: GateCount(s, t) == Count(s.dials, HoldsGate(t))
  }

  lemma DialStepGates(s: State, n: State, d: nat, dial: Dial)
    requires GatesCounted(s) && d < |s.dials| && n.dials == s.dials[d := dial] && dial.target == s.dials[d].target
    requires GatesFollow(s, n, d, dial)
    ensures GatesCounted(n)
  {
    forall t ensures GateCount(n, t) == Count(n.dials, HoldsGate(t)) {
      GateChanged(s, d, dial, t);
    }
  }

  /** A step of dial d moves exactly what the dial gains or gives up. */
  ghost predicate Follows(s: State, n: State, d: nat) {
    && d < |s.dials| == |n.dials| && Shaped(n.dials[d])
    && AccountsFor(s, n, d, n.dials[d]) && GatesFollow(s, n, d, n.dials[d])
  }

  lemma DialStepKeepsInv(s: State, n: State, d: nat)
    requires Inv(s) && Follows(s, n, d)
    ensures Inv(n)
  {
    var dial := n.dials[d];
    DialChanged(s, d, dial);
    CountSnoc(s.outcomes, dial.ok, IsSuccess());
    DialStepGates(s, n, d, dial);
  }

  lemma HandoverKeepsInv(s: State, d: nat)
    requires Inv(s) && IsDialing(s, d)
    ensures Inv(Next(s, AttemptOk(d)))
  {
    var n := Next(s, AttemptOk(d));
    DialChanged(s, d, n.dials[d]);
    CountSnoc(s.conns, Conn(false, true), OwnsSlot());
    DialStepGates(s, n, d, n.dials[d]);
  }

  lemma BeginKeepsInv(s: State, target: string)
    requires Inv(s)
    ensures Inv(Next(s, Begin(target)))
  {}

  lemma ConnKeepsInv(s: State, step: Step)
    requires Inv(s) && Enabled(s, step) && (step.CloseConn? || step.Unregister?)
    ensures Inv(Next(s, step))
  {
    CountUpdate(s.conns, step.c, Next(s, step).conns[step.c], OwnsSlot());
  }

  predicate AcquiringStep(step: Step) {
    step.PassRecovery? || step.GiveUpRecovery? || step.GateGranted? || step.GateDenied?
    || step.SlotGranted? || step.PaceGranted? || step.OpenGranted?
  }

  predicate EndingStep(step: Step) {
    step.Abort? || step.AttemptTransient? || step.AttemptHard? || step.Unwind? || step.Record?
  }

  lemma AcquiringFollows(s: State, step: Step)
    requires Enabled(s, step) && AcquiringStep(step) && Shaped(s.dials[step.d])
    ensures Follows(s, Next(s, step), step.d)
  {}

  lemma EndingFollows(s: State, step: Step)
    requires Enabled(s, step) && EndingStep(step) && Shaped(s.dials[step.d])
    ensures Follows(s, Next(s, step), step.d)
  {}

  lemma StepFollows(s: State, step: Step)
    requires Inv(s) && Enabled(s, step) && (AcquiringStep(step) || EndingStep(step))
    ensures Follows(s, Next(s, step), step.d)
  {
    if AcquiringStep(step) {
      AcquiringFollows(s, step);
    } else {
      EndingFollows(s, step);
    }
  }

  lemma NextKeepsInv(s: State, step: Step)
    requires Inv(s) && Enabled(s, step)
    ensures Inv(Next(s, step))
  {
    match step
    case Begin(target) => BeginKeepsInv(s, target);
    case AttemptOk(d) => HandoverKeepsInv(s, d);
    case CloseConn(_) => ConnKeepsInv(s, step);
    case Unregister(_) => ConnKeepsInv(s, step);
    case _ =>
      StepFollows(s, step);
      DialStepKeepsInv(s, Next(s, step), step.d);
  }

  lemma {:induction false} RunKeepsInv(s: State, steps: seq<Step>)
    requires Inv(s)
    ensures Inv(Run(s, steps))
    decreases steps
  {
    if steps != [] {
      if Enabled(s, steps[0]) {
        NextKeepsInv(s, steps[0]);
      }
      RunKeepsInv(if Enabled(s, steps[0]) then Next(s, steps[0]) else s, steps[1..]);
    }
  }

  // ---- what every run guarantees ---------------------------------------------------------

  /** s is where some run of the protocol can be. */
  ghost predicate Reached(s: State, steps: seq<Step>, slotCap: Option<nat>, openCap: Option<nat>) {
    s == Run(Start(slotCap, openCap), steps)
  }

  lemma StartInv(slotCap: Option<nat>, openCap: Option<nat>)
    ensures Inv(Start(slotCap, openCap))
  {}

  lemma ReachedInv(s: State, steps: seq<Step>, slotCap: Option<nat>, openCap: Option<nat>)
    requires Reached(s, steps, slotCap, openCap)
    ensures Inv(s)
  {
    StartInv(slotCap, openCap);
    RunKeepsInv(Start(slotCap, openCap), steps);
  }

  /** Active slots in use are exactly the dials holding one plus the connections
      not yet closed, within the limit; open slots are the dials holding one. */
  lemma SlotsConserved(s: State, steps: seq<Step>, slotCap: Option<nat>, openCap: Option<nat>)
    requires Reached(s, steps, slotCap, openCap)
    ensures s.slotsUsed == Count(s.dials, HoldsSlot()) + Count(s.conns, OwnsSlot())
    ensures s.openUsed == Count(s.dials, HoldsOpen())
    ensures slotCap.Some? ==> s.slotsUsed <= slotCap.value
    ensures openCap.Some? ==> s.openUsed <= openCap.value
  {
    ReachedInv(s, steps, slotCap, openCap);
    CapsFixed(Start(slotCap, openCap), steps);
  }

  lemma {:induction false} CapsFixed(s: State, steps: seq<Step>)
    ensures Run(s, steps).slotCap == s.slotCap && Run(s, steps).openCap == s.openCap
    decreases steps
  {
    if steps != [] {
      CapsFixed(if Enabled(s, steps[0]) then Next(s, steps[0]) else s, steps[1..]);
    }
  }

  /** A finished dial holds nothing, and has recorded exactly one outcome when it
      passed the recovery wait and none otherwise. */
  lemma FinishedDialsSettled(s: State, steps: seq<Step>, slotCap: Option<nat>, openCap: Option<nat>, d: nat)
    requires Reached(s, steps, slotCap, openCap) && d < |s.dials| && s.dials[d].stage == Finished
    ensures !s.dials[d].gate && !s.dials[d].slot && !s.dials[d].open
    ensures s.dials[d].records == if s.dials[d].admitted then 1 else 0
  {
    ReachedInv(s, steps, slotCap, openCap);
  }

  /** Once every dial is finished, the outcomes recorded are those of the dials that
      passed the recovery wait, and the successes among them are exactly the
      connections handed out. */
  lemma SuccessesAreConnections(s: State, steps: seq<Step>, slotCap: Option<nat>, openCap: Option<nat>)
    requires Reached(s, steps, slotCap, openCap)
    requires forall d :: 0 <= d < |s.dials| ==> s.dials[d].stage == Finished
    ensures |s.outcomes| == Count(s.dials, Admitted()) && Count(s.outcomes, IsSuccess()) == |s.conns|
  {
    ReachedInv(s, steps, slotCap, openCap);
    CountSame(s.dials, Succeeded(), RecordedSuccess());
    CountSame(s.dials, Admitted(), Recorded());
  }

  /** Every release that a dial makes finds its own admission still counted, so
      the gate's bookkeeping never sees an unmatched release. */
  lemma ReleaseIsMatched(s: State, steps: seq<Step>, slotCap: Option<nat>, openCap: Option<nat>, d: nat)
    requires Reached(s, steps, slotCap, openCap) && d < |s.dials| && s.dials[d].gate
    ensures GateCount(s, s.dials[d].target) > 0
  {
    ReachedInv(s, steps, slotCap, openCap);
    var t := s.dials[d].target;
    CountPositive(s.dials, d, HoldsGate(t));
    assert GateCount(s, t) == Count(s.dials, HoldsGate(t));
  }

  /** Whatever connections are closed, and however often, everything comes back:
      once every dial is finished and every connection closed, nothing is in use. */
  lemma EverythingReturns(s: State, steps: seq<Step>, slotCap: Option<nat>, openCap: Option<nat>)
    requires Reached(s, steps, slotCap, openCap)
    requires forall d :: 0 <= d < |s.dials| ==> s.dials[d].stage == Finished
    requires forall c :: 0 <= c < |s.conns| ==> s.conns[c].released
    ensures s.slotsUsed == 0 && s.openUsed == 0 && forall t :: GateCount(s, t) == 0
  {
    ReachedInv(s, steps, slotCap, openCap);
    CountNone(s.dials, HoldsSlot());
    CountNone(s.dials, HoldsOpen());
    CountNone(s.conns, OwnsSlot());
    forall t ensures GateCount(s, t) == 0 {
      CountNone(s.dials, HoldsGate(t));
    }
  }

  // ---- reclaiming idle connections -------------------------------------------------------

  const SOFT_EVICT_IDLE := 15000
  const IDLE_TIMEOUT := 120000

  /** The registered connections with the time each last moved a byte. */
  type Activity = map<nat, int>

  /** evictOneIdleActiveConn's choice: the longest idle connection, if it has been
      idle for 15 seconds. */
  method PickVictim(active: Activity, now: int) returns (victim: Option<nat>)
    ensures victim.Some? ==> victim.value in active && now - active[victim.value] >= SOFT_EVICT_IDLE
    ensures victim.Some? ==> forall c :: c in active ==> active[victim.value] <= active[c]
    ensures victim.None? ==> forall c :: c in active ==> now - active[c] < SOFT_EVICT_IDLE
  {
    victim := None;
    var idle := 0;
    var todo := active.Keys;
    while todo != {}
      invariant todo <= active.Keys
      invariant victim.Some? ==> victim.value in active && idle == now - active[victim.value]
      invariant forall c :: c in active && c !in todo ==> victim.Some? && now - active[c] <= idle
      decreases todo
    {
      var c :| c in todo;
      var cur := now - active[c];
      if victim.None? || cur > idle {
        victim, idle := Some(c), cur;
      }
      todo := todo - {c};
    }
    if victim.None? || idle < SOFT_EVICT_IDLE {
      victim := None;
    }
  }

  /** reapIdleActiveConns closes every connection idle for two minutes. */
  method PickIdle(active: Activity, now: int) returns (victims: set<nat>)
    ensures victims == set c | c in active && now - active[c] >= IDLE_TIMEOUT
  {
    victims := {};
    var todo := active.Keys;
    while todo != {}
      invariant todo <= active.Keys
      invariant victims == set c | c in active && c !in todo && now - active[c] >= IDLE_TIMEOUT
      decreases todo
    {
      var c :| c in todo;
      if now - active[c] >= IDLE_TIMEOUT {
        victims := victims + {c};
      }
      todo := todo - {c};
    }
  }
}

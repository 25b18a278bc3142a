/** The local-TUN manager: one supervised generation at a time
    (internal/localtun/manager.go). Reconcile and Close hold the manager's mutex
    while they wait; the supervisor goroutines take their own steps meanwhile. */
module Supervisor {
  import opened Options

  /** A supervise goroutine. `storing` is a publish that has passed its generation
      check but has not stored its status yet; `cleaned` records that this
      generation's cleanup, or a retry of it, returned nil. */
  datatype Goroutine = Goroutine(gen: nat, cancelled: bool, storing: bool, result: Option<bool>, cleaned: bool)

  predicate Alive(g: Goroutine) { g.result.None? }

  datatype Status = Disabled | Published(gen: nat)

  /** What the caller asked for: a configuration to enable, none, or Close. */
  datatype Request = Enable(cfg: int) | Disable | Shutdown

  datatype Phase = Idle | Stopping(req: Request) | Stopped(req: Request)

  /** `done` is the goroutine whose result the manager has yet to receive; `off`
      says that the last request that succeeded was Disable or Shutdown. */
  datatype State = State(
    generation: nat, cancel: bool, done: Option<nat>, current: Option<int>,
    routines: seq<Goroutine>, status: Status, phase: Phase, off: bool)

  const INITIAL := State(0, false, None, None, [], Disabled, Idle, true)

  datatype Step =
    | Lock(req: Request)
    | NothingToStop
    | RetryCleanup(err: bool)
    | ReceiveDone
    | TimeOut
    | Complete
    | CheckGeneration(id: nat)
    | StoreStatus(id: nat)
    | Exit(id: nat, err: bool)

  /** When a step can happen. */
  predicate Enabled(s: State, step: Step) {
    match step
    case Lock(_) => s.phase == Idle
    case NothingToStop => s.phase.Stopping? && !s.cancel
    case RetryCleanup(_) => s.phase.Stopping? && s.cancel && s.done.None?
    case ReceiveDone =>
      && s.phase.Stopping? && s.cancel && s.done.Some? && s.done.value < |s.routines|
      && !Alive(s.routines[s.done.value])
    case TimeOut => s.phase.Stopping? && s.cancel && s.done.Some?
    case Complete => s.phase.Stopped?
    case CheckGeneration(id) => id < |s.routines| && Alive(s.routines[id]) && !s.routines[id].storing
    case StoreStatus(id) => id < |s.routines| && Alive(s.routines[id]) && s.routines[id].storing
    case Exit(id, _) =>
      id < |s.routines| && Alive(s.routines[id]) && !s.routines[id].storing && s.routines[id].cancelled
  }

  /** Taking the mutex. An unchanged configuration returns at once; Close bumps
      the generation before stopping; stopping cancels the running context. */
  function LockStep(s: State, req: Request): State {
    if req.Enable? && s.cancel && s.current == Some(req.cfg) then s
    else
      var bumped := if req.Shutdown? then s.(generation := s.generation + 1) else s;
      bumped.(routines := CancelRunning(s), phase := Stopping(req))
  }

  function CancelRunning(s: State): seq<Goroutine> {
    if s.cancel && s.done.Some? && s.done.value < |s.routines|
    then s.routines[s.done.value := s.routines[s.done.value].(cancelled := true)]
    else s.routines
  }

  function MarkCleaned(routines: seq<Goroutine>): seq<Goroutine> {
    if routines == [] then [] else routines[|routines| - 1 := routines[|routines| - 1].(cleaned := true)]
  }

  function CompleteStep(s: State): State
    requires s.phase.Stopped?
  {
    match s.phase.req
    case Enable(cfg) =>
      var gen := s.generation + 1;
      s.(generation := gen, cancel := true, done := Some(|s.routines|), current := Some(cfg), status := Published(gen),
         routines := s.routines + [Goroutine(gen, false, false, None, false)], phase := Idle, off := false)
    case Disable =>
      s.(generation := s.generation + 1, current := None, status := Disabled, phase := Idle, off := true)
    case Shutdown =>
      s.(current := None, status := Disabled, phase := Idle, off := true)
  }

  function Next(s: State, step: Step): State
    requires Enabled(s, step)
  {
    match step
    case Lock(req) => LockStep(s, req)
    case NothingToStop => s.(phase := Stopped(s.phase.req))
    case RetryCleanup(err) =>
      if err then s.(phase := Idle)
      else s.(cancel := false, routines := MarkCleaned(s.routines), phase := Stopped(s.phase.req))
    case ReceiveDone =>
      if s.routines[s.done.value].result.value then s.(done := None, phase := Idle)
      else s.(cancel := false, done := None, phase := Stopped(s.phase.req))
    case TimeOut => s.(phase := Idle)
    case Complete => CompleteStep(s)
    case CheckGeneration(id) =>
      var g := s.routines[id];
      s.(routines := s.routines[id := g.(storing := s.generation == g.gen)])
    case StoreStatus(id) =>
      var g := s.routines[id];
      s.(status := Published(g.gen), routines := s.routines[id := g.(storing := false)])
    case Exit(id, err) =>
      s.(routines := s.routines[id := s.routines[id].(result := Some(err), cleaned := !err)])
  }

  /** A run takes the steps that can happen, in any order. */
  function Run(s: State, steps: seq<Step>): State
    decreases steps
  {
    if steps == [] then s else Run(TryStep(s, steps[0]), steps[1..])
  }

  function TryStep(s: State, step: Step): State {
    if Enabled(s, step) then Next(s, step) else s
  }

  // ---- invariants -----------------------------------------------------------------

  /** The generation the manager still owns: the last one started. */
  predicate Owned(s: State, id: int) { s.cancel && id + 1 == |s.routines| }

  predicate Inv(s: State) {
    // a live goroutine is owned, and its result is still to be received
    && (forall id :: 0 <= id < |s.routines| && Alive(s.routines[id]) ==> Owned(s, id) && s.done == Some(id))
    // so is a generation that has not been cleaned up
    && (forall id :: 0 <= id < |s.routines| && !s.routines[id].cleaned ==> Owned(s, id))
    && (forall id :: 0 <= id < |s.routines| ==> s.routines[id].gen <= s.generation)
    && (forall id :: 0 <= id < |s.routines| && s.routines[id].cleaned ==> !Alive(s.routines[id]) )
    && (forall id :: 0 <= id < |s.routines| && s.routines[id].result.Some? && !s.routines[id].result.value ==>
         s.routines[id].cleaned)
    // a supervisor ends only once its context is cancelled
    && (forall id :: 0 <= id < |s.routines| && !Alive(s.routines[id]) ==> s.routines[id].cancelled)
    && (s.cancel ==> s.routines != [])
    && (s.done.Some? ==> s.cancel && s.done.value + 1 == |s.routines|)
    && (s.cancel && s.done.None? ==> !Alive(s.routines[|s.routines| - 1]))
    && (s.phase.Stopped? ==> !s.cancel)
    && (s.off ==> s.status == Disabled && !s.cancel)
  }

  lemma GoroutineKeepsInv(s: State, step: Step)
    requires Inv(s) && Enabled(s, step) && ByGoroutine(step)
    ensures Inv(Next(s, step))
  {}

  lemma StopKeepsInv(s: State, step: Step)
    requires Inv(s) && Enabled(s, step)
             && (step.NothingToStop? || step.RetryCleanup? || step.ReceiveDone? || step.TimeOut?)
    ensures Inv(Next(s, step))
  {}

  lemma NextKeepsInv(s: State, step: Step)
    requires Inv(s) && Enabled(s, step)
    ensures Inv(Next(s, step))
  {
    match step
    case Lock(_) =>
    case Complete =>
    case CheckGeneration(_) => GoroutineKeepsInv(s, step);
    case StoreStatus(_) => GoroutineKeepsInv(s, step);
    case Exit(_, _) => GoroutineKeepsInv(s, step);
    case _ => StopKeepsInv(s, step);
  }

  lemma {:induction false} RunKeepsInv(s: State, steps: seq<Step>)
    requires Inv(s)
    ensures Inv(Run(s, steps))
    decreases steps
  {
    if steps != [] {
      if Enabled(s, steps[0]) {
        NextKeepsInv(s, steps[0]);
      }
      RunKeepsInv(TryStep(s, steps[0]), steps[1..]);
    }
  }

  // ---- what every run guarantees ------------------------------------------------------

  /** Two generations never overlap. */
  lemma AtMostOneSupervisor(steps: seq<Step>, i: nat, j: nat)
    requires var s := Run(INITIAL, steps); i < |s.routines| && j < |s.routines|
    requires var s := Run(INITIAL, steps); Alive(s.routines[i]) && Alive(s.routines[j])
    ensures i == j
  {
    var s := Run(INITIAL, steps);
    RunKeepsInv(INITIAL, steps);
  }

  /** A step that starts a generation finds every earlier one cleaned up. */
  lemma StartsOnlyAfterCleanup(steps: seq<Step>, step: Step, id: nat)
    requires var s := Run(INITIAL, steps);
             Enabled(s, step) && |Next(s, step).routines| > |s.routines| && id < |s.routines|
    ensures var s := Run(INITIAL, steps); s.routines[id].cleaned && !Alive(s.routines[id])
  {
    var s := Run(INITIAL, steps);
    RunKeepsInv(INITIAL, steps);
  }

  /** A generation is up: the manager owns a live goroutine that it has not cancelled. */
  predicate Running(s: State) {
    s.cancel && s.done.Some? && s.done.value < |s.routines| && Alive(s.routines[s.done.value])
      && !s.routines[s.done.value].cancelled
  }

  /** The manager owns a generation that a failed stop has already cancelled: its
      result was received, or it was told to go and has not been waited for. */
  predicate Stale(s: State) {
    s.cancel && (s.done.None? || (s.done.value < |s.routines| && s.routines[s.done.value].cancelled))
  }

  /** In every run an owned generation is either up or left over from a failed stop. */
  lemma OwnedIsRunningOrStale(s: State, steps: seq<Step>)
    requires s == Run(INITIAL, steps) && s.cancel
    ensures Running(s) <==> !Stale(s)
  {
    RunKeepsInv(INITIAL, steps);
  }

  /** A request to change the configuration whose stop fails leaves the old
      configuration on record, so asking for that one again succeeds at once
      although nothing runs. */
  lemma EarlyReturnOverStale(s: State)
    requires s == Run(INITIAL, [Lock(Enable(1)), NothingToStop, Complete, Lock(Enable(2)), Exit(0, true), ReceiveDone])
    ensures s.phase == Idle && Stale(s) && !Alive(s.routines[|s.routines| - 1]) && |s.routines| == 1
    ensures Next(s, Lock(Enable(1))) == s
  {
    var steps := [Lock(Enable(1)), NothingToStop, Complete, Lock(Enable(2)), Exit(0, true), ReceiveDone];
    var up := Next(Next(Next(INITIAL, steps[0]), steps[1]), steps[2]);
    assert Run(INITIAL, steps) == Run(up, steps[3..]);
    var stopping := Next(up, steps[3]);
    var gone := Next(stopping, steps[4]);
    assert Run(up, steps[3..]) == Run(gone, steps[5..]);
    assert steps[5..] == [ReceiveDone];
    RunOne(gone, ReceiveDone);
  }

  /** After a successful Close or disabling Reconcile the status stays disabled,
      whatever older generations and failing requests do, until a request to
      enable completes. */
  lemma {:induction false} DisabledStaysDisabled(s: State, steps: seq<Step>)
    requires Inv(s) && s.off
    requires forall k :: 0 <= k < |steps| ==> !Launches(Run(s, steps[..k]), steps[k])
    ensures Run(s, steps).status == Disabled && Run(s, steps).off
    decreases steps
  {
    if steps != [] {
      assert !Launches(Run(s, steps[..0]), steps[0]);
      var n := TryStep(s, steps[0]);
      if Enabled(s, steps[0]) {
        NextKeepsInv(s, steps[0]);
      }
      forall k | 0 <= k < |steps[1..]| ensures !Launches(Run(n, steps[1..][..k]), steps[1..][k]) {
        assert steps[..k + 1][1..] == steps[1..][..k] && steps[..k + 1][0] == steps[0];
        assert !Launches(Run(s, steps[..k + 1]), steps[k + 1]);
      }
      DisabledStaysDisabled(n, steps[1..]);
    }
  }

  /** The step that completes a request to enable. */
  predicate Launches(s: State, step: Step) {
    step.Complete? && s.phase.Stopped? && s.phase.req.Enable?
  }

  // ---- the manager's methods --------------------------------------------------------

  lemma {:induction false} RunConcat(s: State, a: seq<Step>, b: seq<Step>)
    ensures Run(s, a + b) == Run(Run(s, a), b)
    decreases a
  {
    if a == [] {
      assert a + b == b;
    } else {
      assert (a + b)[1..] == a[1..] + b;
      RunConcat(TryStep(s, a[0]), a[1..], b);
    }
  }

  lemma RunOne(s: State, step: Step)
    ensures Run(s, [step]) == TryStep(s, step)
  {}

  predicate ByGoroutine(step: Step) {
    step.CheckGeneration? || step.StoreStatus? || step.Exit?
  }

  /** How stopLocked's select ends, given the state it waits in. */
  function StopChoice(s: State, timedOut: bool, retryErr: bool): Step {
    if !s.cancel then NothingToStop
    else if s.done.None? then RetryCleanup(retryErr)
    else if timedOut || s.done.value >= |s.routines| || Alive(s.routines[s.done.value]) then TimeOut
    else ReceiveDone
  }

  /** Where stopLocked ends, from the state it starts to wait in. */
  function StopResult(s: State, env: seq<Step>, timedOut: bool, retryErr: bool): State {
    var waited := Run(s, env);
    TryStep(waited, StopChoice(waited, timedOut, retryErr))
  }

  class Manager {
    var generation: nat
    var cancel: bool
    var done: Option<nat>
    var current: Option<int>
    var routines: seq<Goroutine>
    var status: Status
    ghost var off: bool

    ghost function InPhase(phase: Phase): State
      reads this
    {
      State(generation, cancel, done, current, routines, status, phase, off)
    }

    constructor ()
      ensures InPhase(Idle) == INITIAL
    {
      generation, cancel, done, current, routines, status, off := 0, false, None, None, [], Disabled, true;
    }

    method Publish(gen: nat)
      modifies this`status
      ensures status == if generation == gen then Published(gen) else old(status)
    {
      if generation == gen {
        status := Published(gen);
      }
    }

    /** The supervisor goroutines move while the manager waits. */
    method LetOthersRun(env: seq<Step>, ghost phase: Phase)
      requires forall i :: 0 <= i < |env| ==> ByGoroutine(env[i])
      modifies this`routines, this`status
      ensures InPhase(phase) == Run(old(InPhase(phase)), env) && |routines| == |old(routines)|
    {
      for i := 0 to |env|
        invariant |routines| == |old(routines)|
        invariant InPhase(phase) == Run(old(InPhase(phase)), env[..i])
      {
        ghost var before := InPhase(phase);
        assert env[..i + 1] == env[..i] + [env[i]];
        RunConcat(old(InPhase(phase)), env[..i], [env[i]]);
        RunOne(before, env[i]);
        var id := env[i].id;
        if id < |routines| && Alive(routines[id]) {
          var g := routines[id];
          match env[i]
          case CheckGeneration(_) =>
            if !g.storing {
              routines := routines[id := g.(storing := generation == g.gen)];
            }
          case StoreStatus(_) =>
            if g.storing {
              status := Published(g.gen);
              routines := routines[id := g.(storing := false)];
            }
          case Exit(_, err) =>
            if !g.storing && g.cancelled {
              routines := routines[id := g.(result := Some(err), cleaned := !err)];
            }
        }
      }
      assert env[..|env|] == env;
    }

    /** stopLocked: cancel, then wait for the result or for the timeout; after a
        failed cleanup, retry it. It never gives up ownership without a nil
        result. */
    method StopLocked(env: seq<Step>, timedOut: bool, retryErr: bool, ghost req: Request) returns (err: bool)
      requires done.Some? ==> done.value < |routines|
      requires forall i :: 0 <= i < |env| ==> ByGoroutine(env[i])
      modifies this`cancel, this`done, this`routines, this`status
      ensures |routines| == |old(routines)|
      ensures InPhase(if err then Idle else Stopped(req)) ==
              StopResult(old(InPhase(Idle)).(routines := CancelRunning(old(InPhase(Idle))), phase := Stopping(req)),
                env, timedOut, retryErr)
    {
      if cancel && done.Some? {
        routines := routines[done.value := routines[done.value].(cancelled := true)];
      }
      LetOthersRun(env, Stopping(req));
      if !cancel {
        return false;
      }
      if done.None? {
        if retryErr {
          return true;
        }
        routines := MarkCleaned(routines);
        cancel := false;
        return false;
      }
      if timedOut || done.value >= |routines| || Alive(routines[done.value]) {
        return true;
      }
      var result := routines[done.value].result.value;
      done := None;
      if result {
        return true;
      }
      cancel := false;
      err := false;
    }

    /** The steps one call of Reconcile or Close takes, with what the goroutines do
        while it holds the mutex. */
    ghost function Script(req: Request, env: seq<Step>, timedOut: bool, retryErr: bool): seq<Step>
      reads this
    {
      var waited := Run(LockStep(InPhase(Idle), req), env);
      [Lock(req)] + env + [StopChoice(waited, timedOut, retryErr), Complete]
    }

    method Reconcile(selected: Option<int>, env: seq<Step>, timedOut: bool, retryErr: bool) returns (err: bool)
      requires Inv(InPhase(Idle))
      requires forall i :: 0 <= i < |env| ==> ByGoroutine(env[i])
      modifies this
      ensures var req := if selected.Some? then Enable(selected.value) else Disable;
              !(selected.Some? && old(cancel) && old(current) == selected) ==>
                InPhase(Idle) == Run(old(InPhase(Idle)), old(Script(req, env, timedOut, retryErr)))
      ensures selected.Some? && old(cancel) && old(current) == selected ==> !err && InPhase(Idle) == old(InPhase(Idle))
      ensures err ==> |routines| == |old(routines)| && off == old(off)
      ensures !err && selected.None? ==> off && status == Disabled
      ensures !err && selected.Some? ==> cancel && current == selected
      ensures !err && selected.Some? ==>
                (Running(InPhase(Idle)) <==> !(old(current) == selected && old(Stale(InPhase(Idle)))))
    {
      if selected.Some? && cancel && selected == current {
        return false;
      }
      ghost var req := if selected.Some? then Enable(selected.value) else Disable;
      ScriptRuns(InPhase(Idle), req, env, timedOut, retryErr);
      ghost var stopped := StopResult(LockStep(InPhase(Idle), req), env, timedOut, retryErr);
      err := StopLocked(env, timedOut, retryErr, req);
      assert stopped == InPhase(if err then Idle else Stopped(req));
      if err {
        return;
      }
      if selected.None? {
        TurnOff();
      } else {
        Launch(selected.value);
      }
    }

    /** The end of a reconcile that disables the TUN. */
    method TurnOff()
      modifies this
      ensures InPhase(Idle) == CompleteStep(old(InPhase(Stopped(Disable))))
    {
      generation := generation + 1;
      current := None;
      status := Disabled;
      off := true;
    }

    /** The end of a reconcile that starts a new generation. */
    method Launch(cfg: int)
      modifies this
      ensures InPhase(Idle) == CompleteStep(old(InPhase(Stopped(Enable(cfg)))))
    {
      generation := generation + 1;
      cancel, done, current := true, Some(|routines|), Some(cfg);
      Publish(generation);
      routines := routines + [Goroutine(generation, false, false, None, false)];
      off := false;
    }

    method Close(env: seq<Step>, timedOut: bool, retryErr: bool) returns (err: bool)
      requires Inv(InPhase(Idle))
      requires forall i :: 0 <= i < |env| ==> ByGoroutine(env[i])
      modifies this
      ensures InPhase(Idle) == Run(old(InPhase(Idle)), old(Script(Shutdown, env, timedOut, retryErr)))
      ensures !err ==> off && status == Disabled
    {
      ScriptRuns(InPhase(Idle), Shutdown, env, timedOut, retryErr);
      ghost var stopped := StopResult(LockStep(InPhase(Idle), Shutdown), env, timedOut, retryErr);
      generation := generation + 1;
      err := StopLocked(env, timedOut, retryErr, Shutdown);
      assert stopped == InPhase(if err then Idle else Stopped(Shutdown));
      if err {
        return;
      }
      ShutOff();
    }

    /** The end of a close. */
    method ShutOff()
      modifies this
      ensures InPhase(Idle) == CompleteStep(old(InPhase(Stopped(Shutdown)))) && off && status == Disabled
    {
      current := None;
      status := Disabled;
      off := true;
    }
  }

  lemma ScriptRuns(s: State, req: Request, env: seq<Step>, timedOut: bool, retryErr: bool)
    requires s.phase == Idle
    ensures var waited := Run(LockStep(s, req), env);
            Run(s, [Lock(req)] + env + [StopChoice(waited, timedOut, retryErr), Complete]) ==
            TryStep(StopResult(LockStep(s, req), env, timedOut, retryErr), Complete)
  {
    var waited := Run(LockStep(s, req), env);
    var stop := StopChoice(waited, timedOut, retryErr);
    RunOne(s, Lock(req));
    RunConcat(s, [Lock(req)], env);
    RunConcat(s, [Lock(req)] + env, [stop, Complete]);
    assert [stop, Complete] == [stop] + [Complete];
    RunConcat(waited, [stop], [Complete]);
    RunOne(waited, stop);
    RunOne(TryStep(waited, stop), Complete);
  }
}

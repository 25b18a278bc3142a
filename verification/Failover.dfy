/** Concurrent dials through one balancer (internal/outbounds/balancer.go). The
    cooldowns, latency flags and the round-robin counter are shared atomics, so a call
    can be overtaken between any two of its reads and writes; each of these is a step. */
module Failover {
  import opened Balancer
  import opened Integers
  import opened Options
  import opened Sequences

  /** Where a call is. Looking and Storing are the two halves of judging one member's
      latency; from Ready on the attempt order is fixed. */
  datatype Stage =
    | Starting | Scanning | Looking | Storing(found: Class, value: Option<bool>)
    | Ready | Dialing | Connected | Lost | Noting | Checking | Succeeded | GaveUp(ended: bool)

  /** The members judged so far, the attempt order, and the position in it. */
  datatype Call = Call(stage: Stage, now: int, classes: seq<Class>, order: seq<nat>, k: nat)

  /** A connection keeps its member's lease until the first Close. */
  datatype Conn = Conn(member: nat, open: bool)

  /** An outcome that a call has recorded for a member. */
  datatype Note = Note(call: nat, member: nat, ok: bool, at: int)

  datatype State = State(
    cfg: Settings, n: nat, cooldowns: seq<int>, flags: seq<bool>, next: nat, leases: seq<int>,
    calls: seq<Call>, conns: seq<Conn>, notes: seq<Note>)

  function Initial(cfg: Settings, n: nat): State {
    State(cfg, n, seq(n, _ => 0), seq(n, _ => false), 0, seq(n, _ => 0), [], [], [])
  }

  datatype Step =
    | Begin
    | StartScan(c: nat, now: int) | TakeTurn(c: nat)
    | ReadCooldown(c: nat) | LookAtRtt(c: nat, metric: Option<int>) | StoreFlag(c: nat) | Arrange(c: nat)
    | Acquire(c: nat) | Exhaust(c: nat)
    | DialOk(c: nat) | DialFails(c: nat)
    | NoteOk(c: nat, at: int) | CloseLease(c: nat) | NoteFailed(c: nat, at: int) | Check(c: nat, ended: bool)
    | CloseConn(j: nat)

  predicate AtStage(s: State, c: nat, stage: Stage) { c < |s.calls| && s.calls[c].stage == stage }

  predicate Enabled(s: State, step: Step) {
    match step
    case Begin => true
    case StartScan(c, _) => AtStage(s, c, Starting) && s.cfg.mode == Alive
    case TakeTurn(c) => AtStage(s, c, Starting) && s.cfg.mode == RoundRobin
    case ReadCooldown(c) => AtStage(s, c, Scanning) && |s.calls[c].classes| < |s.cooldowns|
    case LookAtRtt(c, _) => AtStage(s, c, Looking) && |s.calls[c].classes| < |s.flags|
    case StoreFlag(c) => c < |s.calls| && s.calls[c].stage.Storing? && |s.calls[c].classes| < |s.flags|
    case Arrange(c) => AtStage(s, c, Scanning) && |s.calls[c].classes| == s.n
    case Acquire(c) => AtStage(s, c, Ready) && Aims(s, s.calls[c])
    case Exhaust(c) => AtStage(s, c, Ready) && s.calls[c].k == |s.calls[c].order|
    case DialOk(c) => AtStage(s, c, Dialing)
    case DialFails(c) => AtStage(s, c, Dialing)
    case NoteOk(c, _) => AtStage(s, c, Connected) && Aims(s, s.calls[c])
    case CloseLease(c) => AtStage(s, c, Lost) && Aims(s, s.calls[c])
    case NoteFailed(c, _) => AtStage(s, c, Noting) && Aims(s, s.calls[c])
    case Check(c, _) => AtStage(s, c, Checking)
    case CloseConn(j) => j < |s.conns| && s.conns[j].member < |s.leases|
  }

  /** The call has a member to try. */
  predicate Aims(s: State, call: Call) {
    call.k < |call.order| && call.order[call.k] < |s.leases| == |s.cooldowns|
  }

  function Aim(call: Call): nat
    requires call.k < |call.order|
  {
    call.order[call.k]
  }

  /** What judging a member's latency finds, and what it then stores. */
  function Judge(cfg: Settings, was: bool, metric: Option<int>): Stage {
    if !cfg.WatchesRtt() then Storing(Healthy, None)
    else if metric.None? then Storing(Healthy, Some(false))
    else if was then
      if metric.value > RecoveryThreshold(cfg.threshold) then Storing(High(metric.value), None)
      else Storing(Healthy, Some(false))
    else if metric.value > cfg.threshold then Storing(High(metric.value), Some(true))
    else Storing(Healthy, None)
  }

  function With(s: State, c: nat, call: Call): State
    requires c < |s.calls|
  {
    s.(calls := s.calls[c := call])
  }

  function Leased(s: State, member: nat, delta: int): State
    requires member < |s.leases|
  {
    s.(leases := s.leases[member := s.leases[member] + delta])
  }

  function Noted(s: State, note: Note): State
    requires note.member < |s.cooldowns|
  {
    s.(cooldowns := NoteOutcome(s.cfg, s.cooldowns, note.member, Attempt(note.ok, false, note.at)),
       notes := s.notes + [note])
  }

  function Next(s: State, step: Step): State
    requires Enabled(s, step)
  {
    match step
    case Begin => s.(calls := s.calls + [Call(Starting, 0, [], [], 0)])
    case StartScan(c, now) => With(s, c, s.calls[c].(stage := Scanning, now := now))
    case TakeTurn(c) =>
      if s.n == 0 then With(s, c, s.calls[c].(stage := Ready))
      else With(s, c, s.calls[c].(stage := Ready, order := Rotation(s.next % s.n, s.n))).(next := (s.next + 1) % TWO_64)
    case ReadCooldown(c) =>
      var call := s.calls[c];
      With(s, c, if s.cooldowns[|call.classes|] > call.now then call.(classes := call.classes + [Cooling])
                 else call.(stage := Looking))
    case LookAtRtt(c, metric) =>
      var call := s.calls[c];
      With(s, c, call.(stage := Judge(s.cfg, s.flags[|call.classes|], metric)))
    case StoreFlag(c) =>
      var call := s.calls[c];
      var stored := With(s, c, call.(stage := Scanning, classes := call.classes + [call.stage.found]));
      if call.stage.value.None? then stored
      else stored.(flags := s.flags[|call.classes| := call.stage.value.value])
    case Arrange(c) => With(s, c, s.calls[c].(stage := Ready, order := AliveOrder(s.calls[c].classes)))
    case Acquire(c) => Leased(With(s, c, s.calls[c].(stage := Dialing)), Aim(s.calls[c]), 1)
    case Exhaust(c) => With(s, c, s.calls[c].(stage := GaveUp(false)))
    case DialOk(c) => With(s, c, s.calls[c].(stage := Connected))
    case DialFails(c) => With(s, c, s.calls[c].(stage := Lost))
    case NoteOk(c, at) =>
      var member := Aim(s.calls[c]);
      Noted(With(s, c, s.calls[c].(stage := Succeeded)), Note(c, member, true, at))
        .(conns := s.conns + [Conn(member, true)])
    case CloseLease(c) => Leased(With(s, c, s.calls[c].(stage := Noting)), Aim(s.calls[c]), -1)
    case NoteFailed(c, at) =>
      Noted(With(s, c, s.calls[c].(stage := Checking)), Note(c, Aim(s.calls[c]), false, at))
    case Check(c, ended) =>
      var call := s.calls[c];
      With(s, c, call.(stage := if ended then GaveUp(true) else Ready, k := call.k + 1))
    case CloseConn(j) =>
      if !s.conns[j].open then s
      else Leased(s.(conns := s.conns[j := s.conns[j].(open := false)]), s.conns[j].member, -1)
  }

  function Run(s: State, steps: seq<Step>): State
    decreases steps
  {
    if steps == [] then s else Run(if Enabled(s, steps[0]) then Next(s, steps[0]) else s, steps[1..])
  }

  // ---- invariants --------------------------------------------------------------------------

  predicate Judging(stage: Stage) {
    stage.Starting? || stage.Scanning? || stage.Looking? || stage.Storing?
  }

  ghost predicate CallInv(n: nat, call: Call) {
    if Judging(call.stage) then
      && call.order == [] && call.k == 0 && |call.classes| <= n
      && (call.stage.Looking? || call.stage.Storing? ==> |call.classes| < n)
      && (call.stage.Starting? ==> call.classes == [])
    else
      && EachOnce(call.order, n) && |call.order| == n && Within(call.order, n) && call.k <= n
      && (!call.stage.Ready? && !call.stage.GaveUp? ==> call.k < n)
      && (call.stage == GaveUp(false) ==> call.k == n)
      && (call.stage == GaveUp(true) ==> call.k > 0)
  }

  predicate Holding(stage: Stage) { stage.Dialing? || stage.Connected? || stage.Lost? }

  /** The call holds a lease on this member. */
  function Holds(member: nat): Call -> bool {
    (call: Call) => Holding(call.stage) && call.k < |call.order| && call.order[call.k] == member
  }

  function OpenOn(member: nat): Conn -> bool { (conn: Conn) => conn.open && conn.member == member }

  function HasSucceeded(): Call -> bool { (call: Call) => call.stage.Succeeded? }

  predicate LeasesCounted(s: State, member: nat)
    requires member < |s.leases|
  {
    s.leases[member] == Count(s.calls, Holds(member)) + Count(s.conns, OpenOn(member))
  }

  /** What the last outcome recorded for a member makes of its cooldown. */
  function CooldownFrom(cfg: Settings, notes: seq<Note>, member: nat): int {
    if notes == [] then 0
    else
      var last := notes[|notes| - 1];
      if last.member != member || cfg.mode != Alive || (!last.ok && cfg.cooldown <= 0)
      then CooldownFrom(cfg, notes[..|notes| - 1], member)
      else if last.ok then 0 else last.at + cfg.cooldown
  }

  /** The members that a call has recorded outcomes for, with the outcomes. */
  function NotesOf(notes: seq<Note>, c: nat): seq<(nat, bool)> {
    if notes == [] then []
    else
      var last := notes[|notes| - 1];
      NotesOf(notes[..|notes| - 1], c) + if last.call == c then [(last.member, last.ok)] else []
  }

  function Failures(members: seq<nat>): (r: seq<(nat, bool)>)
    ensures |r| == |members| && forall i :: 0 <= i < |r| ==> r[i] == (members[i], false)
  {
    seq(|members|, i requires 0 <= i < |members| => (members[i], false))
  }

  /** How many members of its order a call has seen fail. */
  function Failed(call: Call): nat { if call.stage.Checking? then call.k + 1 else call.k }

  predicate NotesFit(s: State, c: nat)
    requires c < |s.calls|
  {
    var call := s.calls[c];
    && Failed(call) <= |call.order| && (call.stage.Succeeded? ==> call.k < |call.order|)
    && NotesOf(s.notes, c) ==
       Failures(call.order[..Failed(call)]) + if call.stage.Succeeded? then [(call.order[call.k], true)] else []
  }

  /** Everything shared has the size of the balancer. */
  predicate Sized(s: State) { |s.cooldowns| == |s.flags| == |s.leases| == s.n }

  ghost predicate CallsFit(s: State) {
    && (forall c :: 0 <= c < |s.calls| ==> CallInv(s.n, s.calls[c]))
    && (forall j :: 0 <= j < |s.conns| ==> s.conns[j].member < s.n)
    && (forall i :: 0 <= i < |s.notes| ==> s.notes[i].call < |s.calls|)
  }

  ghost predicate Inv(s: State) {
    && Sized(s) && CallsFit(s)
    && |s.conns| == Count(s.calls, HasSucceeded())
    && (forall m :: 0 <= m < s.n ==> LeasesCounted(s, m))
    && (forall m :: 0 <= m < s.n ==> s.cooldowns[m] == CooldownFrom(s.cfg, s.notes, m))
    && (forall c :: 0 <= c < |s.calls| ==> NotesFit(s, c))
  }

  lemma RotationFits(start: nat, n: nat)
    requires start < n
    ensures EachOnce(Rotation(start, n), n) && Within(Rotation(start, n), n)
  {
    RotationIsPermutation(start, n);
    EachOnceLength(Rotation(start, n), n);
  }

  lemma AliveOrderFits(classes: seq<Class>)
    ensures EachOnce(AliveOrder(classes), |classes|) && |AliveOrder(classes)| == |classes|
    ensures Within(AliveOrder(classes), |classes|)
  {
    AliveOrderIsPermutation(classes);
    EachOnceLength(AliveOrder(classes), |classes|);
  }

  /** The steps that move a call before and after it has its order. */
  predicate Ordering(step: Step) {
    step.StartScan? || step.TakeTurn? || step.ReadCooldown? || step.LookAtRtt? || step.StoreFlag? || step.Arrange?
  }

  predicate Moves(step: Step) { !step.Begin? && !step.CloseConn? }

  /** Ordering steps of a call touch nothing that the other invariants speak of. */
  ghost predicate Quiet(s: State, n: State, c: nat) {
    && c < |s.calls| == |n.calls| && n.calls == s.calls[c := n.calls[c]]
    && n.leases == s.leases && n.conns == s.conns && n.notes == s.notes && n.cooldowns == s.cooldowns
    && Judging(s.calls[c].stage) && (Judging(n.calls[c].stage) || n.calls[c].stage.Ready?)
    && n.calls[c].k == s.calls[c].k
  }

  lemma OrderingIsQuiet(s: State, step: Step)
    requires Enabled(s, step) && Ordering(step)
    ensures Quiet(s, Next(s, step), step.c)
  {}

  lemma ScanningFits(s: State, step: Step)
    requires Enabled(s, step) && (step.ReadCooldown? || step.LookAtRtt? || step.StoreFlag?)
    requires Sized(s) && CallInv(s.n, s.calls[step.c])
    ensures CallInv(s.n, Next(s, step).calls[step.c])
  {}

  lemma OrderingFits(s: State, step: Step)
    requires Enabled(s, step) && Ordering(step) && Sized(s) && CallInv(s.n, s.calls[step.c])
    ensures CallInv(s.n, Next(s, step).calls[step.c])
  {
    match step
    case StartScan(_, _) =>
    case TakeTurn(_) =>
      if s.n > 0 {
        RotationFits(s.next % s.n, s.n);
      }
    case Arrange(c) => AliveOrderFits(s.calls[c].classes);
    case _ => ScanningFits(s, step);
  }

  /** Once there is an order, a step moves its call along it. */
  lemma TryingKeepsOrder(s: State, step: Step)
    requires Enabled(s, step) && Moves(step) && !Ordering(step)
    ensures var call, moved := s.calls[step.c], Next(s, step).calls[step.c];
      && Next(s, step).calls == s.calls[step.c := moved]
      && moved.order == call.order && moved.k == (if step.Check? then call.k + 1 else call.k)
      && !Judging(call.stage) && !Judging(moved.stage)
  {}

  lemma TryingFits(s: State, step: Step)
    requires Enabled(s, step) && Moves(step) && !Ordering(step) && CallInv(s.n, s.calls[step.c])
    ensures CallInv(s.n, Next(s, step).calls[step.c])
  {
    TryingKeepsOrder(s, step);
  }

  lemma MovedCallFits(s: State, step: Step)
    requires Enabled(s, step) && Moves(step) && Sized(s) && CallInv(s.n, s.calls[step.c])
    ensures CallInv(s.n, Next(s, step).calls[step.c])
  {
    if Ordering(step) {
      OrderingFits(s, step);
    } else {
      TryingFits(s, step);
    }
  }

  // Leases.

  lemma QuietCounts(s: State, n: State, c: nat, m: nat)
    requires Quiet(s, n, c) && m < |s.leases| && LeasesCounted(s, m)
    ensures LeasesCounted(n, m)
  {
    CountUpdate(s.calls, c, n.calls[c], Holds(m));
  }

  /** The step gives and takes exactly the leases that its call gains and gives up. */
  ghost predicate LeasesFollow(s: State, n: State, c: nat) {
    && c < |s.calls| == |n.calls| && n.calls == s.calls[c := n.calls[c]]
    && n.conns == s.conns && |n.leases| == |s.leases|
    && forall m :: 0 <= m < |s.leases| ==>
         n.leases[m] - s.leases[m] == One(Holds(m)(n.calls[c])) - One(Holds(m)(s.calls[c]))
  }

  lemma LeasingFollows(s: State, step: Step)
    requires Enabled(s, step) && (step.Acquire? || step.CloseLease?)
    ensures LeasesFollow(s, Next(s, step), step.c)
  {}

  lemma AttemptFollows(s: State, step: Step)
    requires Enabled(s, step) && (step.Exhaust? || step.DialOk? || step.DialFails? || step.NoteFailed? || step.Check?)
    ensures LeasesFollow(s, Next(s, step), step.c)
  {}

  lemma FollowedCounts(s: State, n: State, c: nat, m: nat)
    requires LeasesFollow(s, n, c) && m < |s.leases| && LeasesCounted(s, m)
    ensures LeasesCounted(n, m)
  {
    CountUpdate(s.calls, c, n.calls[c], Holds(m));
  }

  /** On success the lease passes from the call to its connection. */
  lemma HandoverCounts(s: State, c: nat, at: int, m: nat)
    requires Enabled(s, NoteOk(c, at)) && m < |s.leases| && LeasesCounted(s, m)
    ensures LeasesCounted(Next(s, NoteOk(c, at)), m)
  {
    var n := Next(s, NoteOk(c, at));
    CountUpdate(s.calls, c, n.calls[c], Holds(m));
    CountSnoc(s.conns, n.conns[|s.conns|], OpenOn(m));
  }

  lemma TryingCounts(s: State, step: Step, m: nat)
    requires Enabled(s, step) && Moves(step) && !Ordering(step) && m < |s.leases| && LeasesCounted(s, m)
    ensures |Next(s, step).leases| == |s.leases| && LeasesCounted(Next(s, step), m)
  {
    if step.NoteOk? {
      HandoverCounts(s, step.c, step.at, m);
    } else {
      if step.Acquire? || step.CloseLease? {
        LeasingFollows(s, step);
      } else {
        AttemptFollows(s, step);
      }
      FollowedCounts(s, Next(s, step), step.c, m);
    }
  }

  lemma NextCountsLeases(s: State, step: Step, m: nat)
    requires Enabled(s, step) && m < |s.leases| && LeasesCounted(s, m)
    ensures |Next(s, step).leases| == |s.leases| && LeasesCounted(Next(s, step), m)
  {
    var n := Next(s, step);
    if step.Begin? {
      CountSnoc(s.calls, n.calls[|s.calls|], Holds(m));
    } else if step.CloseConn? {
      CountUpdate(s.conns, step.j, n.conns[step.j], OpenOn(m));
    } else if Ordering(step) {
      OrderingIsQuiet(s, step);
      QuietCounts(s, n, step.c, m);
    } else {
      TryingCounts(s, step, m);
    }
  }

  // Connections.

  lemma TryingConns(s: State, step: Step)
    requires Enabled(s, step) && Moves(step) && !Ordering(step)
    ensures var call, moved := s.calls[step.c], Next(s, step).calls[step.c];
      && !call.stage.Succeeded? && (moved.stage.Succeeded? <==> step.NoteOk?)
      && |Next(s, step).conns| == |s.conns| + if step.NoteOk? then 1 else 0
  {}

  lemma NextCountsConns(s: State, step: Step)
    requires Enabled(s, step) && |s.conns| == Count(s.calls, HasSucceeded())
    ensures |Next(s, step).conns| == Count(Next(s, step).calls, HasSucceeded())
  {
    var n := Next(s, step);
    if step.Begin? {
      CountSnoc(s.calls, n.calls[|s.calls|], HasSucceeded());
    } else if Moves(step) {
      if Ordering(step) {
        OrderingIsQuiet(s, step);
      } else {
        TryingKeepsOrder(s, step);
        TryingConns(s, step);
      }
      CountUpdate(s.calls, step.c, n.calls[step.c], HasSucceeded());
    }
  }

  // Cooldowns and notes.

  predicate Notes(step: Step) { step.NoteOk? || step.NoteFailed? }

  function NoteBy(s: State, step: Step): Note
    requires Enabled(s, step) && Notes(step)
  {
    Note(step.c, Aim(s.calls[step.c]), step.NoteOk?, step.at)
  }

  lemma NotedOnce(s: State, step: Step)
    requires Enabled(s, step)
    ensures var n := Next(s, step);
      if Notes(step) then
        var note := NoteBy(s, step);
        && n.notes == s.notes + [note] && note.member < |s.cooldowns|
        && n.cooldowns == NoteOutcome(s.cfg, s.cooldowns, note.member, Attempt(note.ok, false, note.at))
      else n.notes == s.notes && n.cooldowns == s.cooldowns
  {}

  lemma NextCooldown(s: State, step: Step, m: nat)
    requires Enabled(s, step) && m < |s.cooldowns| && s.cooldowns[m] == CooldownFrom(s.cfg, s.notes, m)
    ensures |Next(s, step).cooldowns| == |s.cooldowns|
    ensures Next(s, step).cooldowns[m] == CooldownFrom(s.cfg, Next(s, step).notes, m)
  {
    NotedOnce(s, step);
    if Notes(step) {
      assert Next(s, step).notes[..|s.notes|] == s.notes;
    }
  }

  lemma {:induction false} NoNotes(notes: seq<Note>, c: nat)
    requires forall i :: 0 <= i < |notes| ==> notes[i].call != c
    ensures NotesOf(notes, c) == []
  {
    if notes != [] {
      NoNotes(notes[..|notes| - 1], c);
    }
  }

  lemma NotesSnoc(notes: seq<Note>, note: Note, c: nat)
    ensures NotesOf(notes + [note], c) == NotesOf(notes, c) + if note.call == c then [(note.member, note.ok)] else []
  {
    assert (notes + [note])[..|notes|] == notes;
  }

  lemma FailuresNext(order: seq<nat>, k: nat)
    requires k < |order|
    ensures Failures(order[..k + 1]) == Failures(order[..k]) + [(order[k], false)]
  {}

  lemma QuietNotes(s: State, n: State, c: nat)
    requires Quiet(s, n, c) && CallInv(s.n, s.calls[c]) && NotesFit(s, c)
    ensures NotesFit(n, c)
  {
    assert n.calls[c].order[..0] == s.calls[c].order[..0] == [];
  }

  /** The call has not moved on in its order. */
  ghost predicate SamePlace(s: State, n: State, c: nat) {
    && c < |s.calls| == |n.calls| && n.calls[c].order == s.calls[c].order
    && !s.calls[c].stage.Succeeded? && (n.calls[c].stage.Succeeded? ==> n.calls[c].k < |n.calls[c].order|)
  }

  lemma NotesUnmoved(s: State, n: State, c: nat)
    requires SamePlace(s, n, c) && NotesFit(s, c) && n.notes == s.notes
    requires Failed(n.calls[c]) == Failed(s.calls[c]) && !n.calls[c].stage.Succeeded?
    ensures NotesFit(n, c)
  {}

  lemma NotesFailure(s: State, n: State, c: nat, note: Note)
    requires SamePlace(s, n, c) && NotesFit(s, c) && n.notes == s.notes + [note] && note.call == c && !note.ok
    requires Failed(s.calls[c]) < |s.calls[c].order| && note.member == s.calls[c].order[Failed(s.calls[c])]
    requires Failed(n.calls[c]) == Failed(s.calls[c]) + 1 && !n.calls[c].stage.Succeeded?
    ensures NotesFit(n, c)
  {
    NotesSnoc(s.notes, note, c);
    FailuresNext(s.calls[c].order, Failed(s.calls[c]));
  }

  lemma NotesSuccess(s: State, n: State, c: nat, note: Note)
    requires SamePlace(s, n, c) && NotesFit(s, c) && n.notes == s.notes + [note] && note.call == c && note.ok
    requires n.calls[c].stage.Succeeded? && n.calls[c].k == Failed(s.calls[c]) && note.member == Aim(n.calls[c])
    ensures NotesFit(n, c)
  {
    NotesSnoc(s.notes, note, c);
  }

  lemma TryingPlaces(s: State, step: Step)
    requires Enabled(s, step) && Moves(step) && !Ordering(step)
    ensures var n := Next(s, step);
      && SamePlace(s, n, step.c) && (n.calls[step.c].stage.Succeeded? <==> step.NoteOk?)
      && Failed(n.calls[step.c]) == Failed(s.calls[step.c]) + One(step.NoteFailed?)
      && (Notes(step) ==> Failed(s.calls[step.c]) == s.calls[step.c].k && Aims(s, s.calls[step.c]))
  {
    TryingKeepsOrder(s, step);
  }

  lemma TryingNotes(s: State, step: Step)
    requires Enabled(s, step) && Moves(step) && !Ordering(step) && NotesFit(s, step.c)
    ensures NotesFit(Next(s, step), step.c)
  {
    var n := Next(s, step);
    TryingPlaces(s, step);
    NotedOnce(s, step);
    if step.NoteOk? {
      NotesSuccess(s, n, step.c, NoteBy(s, step));
    } else if step.NoteFailed? {
      NotesFailure(s, n, step.c, NoteBy(s, step));
    } else {
      NotesUnmoved(s, n, step.c);
    }
  }

  lemma OtherCallNotes(s: State, step: Step, c: nat)
    requires Enabled(s, step) && c < |s.calls| && NotesFit(s, c) && (Moves(step) ==> step.c != c)
    ensures NotesFit(Next(s, step), c)
  {
    NotedOnce(s, step);
    if Notes(step) {
      NotesSnoc(s.notes, NoteBy(s, step), c);
    }
    OthersStay(s, step, c);
  }

  lemma OthersStay(s: State, step: Step, c: nat)
    requires Enabled(s, step) && c < |s.calls| && (Moves(step) ==> step.c != c)
    ensures c < |Next(s, step).calls| && Next(s, step).calls[c] == s.calls[c]
  {}

  lemma NextShape(s: State, step: Step)
    requires Enabled(s, step)
    ensures var n := Next(s, step);
      && n.n == s.n && n.cfg == s.cfg && |n.flags| == |s.flags|
      && |n.calls| == |s.calls| + if step.Begin? then 1 else 0
  {}

  lemma NextConnsFit(s: State, step: Step)
    requires Enabled(s, step) && Sized(s) && forall j :: 0 <= j < |s.conns| ==> s.conns[j].member < s.n
    ensures forall j :: 0 <= j < |Next(s, step).conns| ==> Next(s, step).conns[j].member < s.n
  {
    if !step.NoteOk? && !step.CloseConn? {
      assert Next(s, step).conns == s.conns;
    }
  }

  lemma NextCallsFit(s: State, step: Step)
    requires Enabled(s, step) && CallsFit(s) && Sized(s)
    ensures CallsFit(Next(s, step))
  {
    var n := Next(s, step);
    NextShape(s, step);
    NextConnsFit(s, step);
    NotedOnce(s, step);
    forall c | 0 <= c < |n.calls| ensures CallInv(n.n, n.calls[c]) {
      if Moves(step) && step.c == c {
        MovedCallFits(s, step);
      } else if c < |s.calls| {
        OthersStay(s, step, c);
      }
    }
  }

  lemma NextNotesFit(s: State, step: Step, c: nat)
    requires Inv(s) && Enabled(s, step) && c < |Next(s, step).calls|
    ensures NotesFit(Next(s, step), c)
  {
    if Moves(step) && step.c == c {
      if Ordering(step) {
        OrderingIsQuiet(s, step);
        QuietNotes(s, Next(s, step), c);
      } else {
        TryingNotes(s, step);
      }
    } else if c < |s.calls| {
      OtherCallNotes(s, step, c);
    } else {
      NoNotes(s.notes, c);
    }
  }

  lemma NextKeepsInv(s: State, step: Step)
    requires Inv(s) && Enabled(s, step)
    ensures Inv(Next(s, step))
  {
    var n := Next(s, step);
    NextShape(s, step);
    NextCallsFit(s, step);
    NextCountsConns(s, step);
    forall m | 0 <= m < s.n ensures |n.leases| == s.n && LeasesCounted(n, m) {
      NextCountsLeases(s, step, m);
    }
    forall m | 0 <= m < s.n ensures |n.cooldowns| == s.n && n.cooldowns[m] == CooldownFrom(s.cfg, n.notes, m) {
      NextCooldown(s, step, m);
    }
    forall c | 0 <= c < |n.calls| ensures NotesFit(n, c) {
      NextNotesFit(s, step, c);
    }
  }

  lemma {:induction false} RunKeepsInv(s: State, steps: seq<Step>)
    requires Inv(s)
    ensures Inv(Run(s, steps)) && Run(s, steps).n == s.n && Run(s, steps).cfg == s.cfg
    decreases steps
  {
    if steps != [] {
      var next := if Enabled(s, steps[0]) then Next(s, steps[0]) else s;
      if Enabled(s, steps[0]) {
        NextKeepsInv(s, steps[0]);
      }
      RunKeepsInv(next, steps[1..]);
    }
  }

  // ---- what every run guarantees ---------------------------------------------------------------

  ghost predicate Reached(s: State, steps: seq<Step>, cfg: Settings, n: nat) {
    s == Run(Initial(cfg, n), steps)
  }

  lemma ReachedInv(s: State, steps: seq<Step>, cfg: Settings, n: nat)
    requires Reached(s, steps, cfg, n)
    ensures Inv(s) && s.n == n && s.cfg == cfg
  {
    RunKeepsInv(Initial(cfg, n), steps);
  }

  /** A call that has not returned can always go on. */
  lemma CallCanMove(s: State, steps: seq<Step>, cfg: Settings, n: nat, c: nat) returns (step: Step)
    requires Reached(s, steps, cfg, n) && c < |s.calls|
    requires !s.calls[c].stage.Succeeded? && !s.calls[c].stage.GaveUp?
    ensures Enabled(s, step) && Moves(step) && step.c == c
  {
    ReachedInv(s, steps, cfg, n);
    var call := s.calls[c];
    match call.stage
    case Starting => step := if cfg.mode == Alive then StartScan(c, 0) else TakeTurn(c);
    case Scanning => step := if |call.classes| < n then ReadCooldown(c) else Arrange(c);
    case Looking => step := LookAtRtt(c, None);
    case Storing(_, _) => step := StoreFlag(c);
    case Ready => step := if call.k < n then Acquire(c) else Exhaust(c);
    case Dialing => step := DialOk(c);
    case Connected => step := NoteOk(c, 0);
    case Lost => step := CloseLease(c);
    case Noting => step := NoteFailed(c, 0);
    case Checking => step := Check(c, false);
  }

  /** However calls overtake each other, a member's leases are the calls dialing through
      it and the open connections over it. */
  lemma LeasesConserved(s: State, steps: seq<Step>, cfg: Settings, n: nat, m: nat)
    requires Reached(s, steps, cfg, n) && m < n
    ensures |s.leases| == n && s.leases[m] == Count(s.calls, Holds(m)) + Count(s.conns, OpenOn(m))
  {
    ReachedInv(s, steps, cfg, n);
    assert LeasesCounted(s, m);
  }

  /** Once the calls have returned and the connections are closed nothing is leased. */
  lemma LeasesReturn(s: State, steps: seq<Step>, cfg: Settings, n: nat, m: nat)
    requires Reached(s, steps, cfg, n) && m < n
    requires forall c :: 0 <= c < |s.calls| ==> s.calls[c].stage.Succeeded? || s.calls[c].stage.GaveUp?
    requires forall j :: 0 <= j < |s.conns| ==> !s.conns[j].open
    ensures |s.leases| == n && s.leases[m] == 0
  {
    LeasesConserved(s, steps, cfg, n, m);
    CountNone(s.calls, Holds(m));
    CountNone(s.conns, OpenOn(m));
  }

  /** Although the scan reads what other calls are changing, the order that a call goes
      by holds every member exactly once. */
  lemma OrdersArePermutations(s: State, steps: seq<Step>, cfg: Settings, n: nat, c: nat)
    requires Reached(s, steps, cfg, n) && c < |s.calls| && !Judging(s.calls[c].stage)
    ensures EachOnce(s.calls[c].order, n)
  {
    ReachedInv(s, steps, cfg, n);
  }

  /** A member's cooldown is what the last outcome recorded for it says, whichever call
      recorded it. */
  lemma CooldownIsLastNote(s: State, steps: seq<Step>, cfg: Settings, n: nat, m: nat)
    requires Reached(s, steps, cfg, n) && m < n
    ensures |s.cooldowns| == n && s.cooldowns[m] == CooldownFrom(cfg, s.notes, m)
  {
    ReachedInv(s, steps, cfg, n);
  }

  /** A call that returned a connection recorded a failure for each member before the
      chosen one, in its order, and then the success; a call that gave up recorded
      failures only, for all members unless its context had ended. */
  lemma CallsRecordTheirOrder(s: State, steps: seq<Step>, cfg: Settings, n: nat, c: nat)
    requires Reached(s, steps, cfg, n) && c < |s.calls|
    ensures var call := s.calls[c];
      && (call.stage.Succeeded? ==>
            && call.k < |call.order| == n
            && NotesOf(s.notes, c) == Failures(call.order[..call.k]) + [(call.order[call.k], true)])
      && (call.stage.GaveUp? ==>
            && call.k <= |call.order| == n && (call.stage.ended || call.k == n)
            && NotesOf(s.notes, c) == Failures(call.order[..call.k]))
  {
    ReachedInv(s, steps, cfg, n);
    assert NotesFit(s, c);
  }

  /** There are as many connections as calls that returned one. */
  lemma ConnsAreSuccesses(s: State, steps: seq<Step>, cfg: Settings, n: nat)
    requires Reached(s, steps, cfg, n)
    ensures |s.conns| == Count(s.calls, HasSucceeded())
  {
    ReachedInv(s, steps, cfg, n);
  }
}

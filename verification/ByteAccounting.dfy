/** Traffic accounting (internal/userdb/accounting.go): byte counters that Add and
    AddOutbound feed, and that Flush drains into one database transaction.

    Adds and flushes run concurrently. Each atomic counter operation is one step of
    the machine below, and steps of different calls interleave freely. */
module ByteAccounting {
  import opened Sequences

  // ---- keys ------------------------------------------------------------------------

  /** A counter pair: the user map, the session map under its joined key, or the
      outbound map. */
  datatype Row = User(id: string) | Session(key: string) | Outbound(tag: string)

  /** One direction of a counter pair. */
  datatype Cell = Cell(row: Row, up: bool)

  const SEPARATOR := 0 as char

  function JoinKey(user: string, session: string): string { user + [SEPARATOR] + session }

  datatype Pair = NoPair | Pair(first: string, second: string)

  /** strings.SplitN(key, separator, 2). */
  function SplitKey(key: string): Pair {
    if key == [] then NoPair
    else if key[0] == SEPARATOR then Pair([], key[1..])
    else match SplitKey(key[1..])
      case NoPair => NoPair
      case Pair(a, b) => Pair([key[0]] + a, b)
  }

  /** The flush credits the session row of the very user and session that were
      counted exactly when the user identifier holds no separator. */
  lemma {:induction false} SplitInvertsJoinIff(user: string, session: string)
    ensures SplitKey(JoinKey(user, session)) == Pair(user, session) <==> SEPARATOR !in user
  {
    var key := JoinKey(user, session);
    if user == [] {
      assert key[1..] == session;
    } else {
      assert key[1..] == JoinKey(user[1..], session);
      SplitInvertsJoinIff(user[1..], session);
      SplitKeeps(key[1..]);
      assert user == [user[0]] + user[1..];
    }
  }

  /** With a separator in the user identifier the bytes go to another user's row.
      Identifiers made by the program are hexadecimal and have none. */
  lemma SeparatorInUserMisattributes()
    ensures SplitKey(JoinKey(['a', SEPARATOR, 'b'], ['c'])) == Pair(['a'], ['b', SEPARATOR, 'c'])
  {
    var key := JoinKey(['a', SEPARATOR, 'b'], ['c']);
    assert key[1..][0] == SEPARATOR;
    assert key[1..][1..] == ['b', SEPARATOR, 'c'];
    assert SplitKey(key[1..]) == Pair([], ['b', SEPARATOR, 'c']);
  }

  /** Splitting loses nothing, so distinct session counters go to distinct rows. */
  lemma {:induction false} SplitKeeps(key: string)
    ensures SEPARATOR in key <==> SplitKey(key).Pair?
    ensures SplitKey(key).Pair? ==>
            JoinKey(SplitKey(key).first, SplitKey(key).second) == key && SEPARATOR !in SplitKey(key).first
  {
    if key != [] {
      assert key == [key[0]] + key[1..];
      if key[0] != SEPARATOR {
        SplitKeeps(key[1..]);
      }
    }
  }

  lemma SessionRowsDistinct(a: string, b: string)
    requires SplitKey(a).Pair? && SplitKey(a) == SplitKey(b)
    ensures a == b
  {
    SplitKeeps(a);
    SplitKeeps(b);
  }

  // ---- amounts ---------------------------------------------------------------------

  type Amounts = map<Cell, int>

  function At(m: Amounts, c: Cell): int { if c in m then m[c] else 0 }

  function Bump(m: Amounts, c: Cell, d: int): Amounts { m[c := At(m, c) + d] }

  function Plus(a: Amounts, b: Amounts): (r: Amounts)
    ensures forall c :: At(r, c) == At(a, c) + At(b, c)
  {
    map c | c in a.Keys + b.Keys :: At(a, c) + At(b, c)
  }

  // ---- the machine -------------------------------------------------------------------

  /** One atomic addition that a running Add has still to perform. */
  datatype Part = Part(cell: Cell, delta: int)

  /** A running flush: deltas swapped out of the counters, the rows already written
      in its transaction, and those among them that matched a database row. A failed
      one puts its deltas back; a done one holds nothing. */
  datatype Flush = Flush(held: Amounts, written: set<Row>, found: set<Row>, phase: Phase)

  datatype Phase = Open | Failed | Done

  datatype State = State(
    counters: Amounts,
    adds: seq<seq<Part>>,
    flushes: seq<Flush>,
    committed: Amounts,
    dropped: Amounts,
    requested: Amounts)

  datatype Step =
    | Begin(parts: seq<Part>)
    | Apply(add: nat)
    | StartFlush
    | Swap(flush: nat, cell: Cell)
    | Write(flush: nat, row: Row, present: bool)
    | Commit(flush: nat)
    | Fail(flush: nat)
    | Restore(flush: nat, cell: Cell)

  const INITIAL := State(map[], [], [], map[], map[], map[])

  /** The parts of Add, in the order the code performs them. */
  function AddParts(user: string, session: string, up: int, down: int): seq<Part> {
    if Blank(user) then [] else
      Direction(user, session, true, up) + Direction(user, session, false, down)
  }

  function Direction(user: string, session: string, isUp: bool, delta: int): seq<Part> {
    if delta == 0 then []
    else [Part(Cell(User(user), isUp), delta)] +
         (if session == "" then [] else [Part(Cell(Session(JoinKey(user, session)), isUp), delta)])
  }

  /** The parts of AddOutbound. */
  function OutboundParts(tag: string, up: int, down: int): seq<Part> {
    if Blank(tag) then [] else
      (if up == 0 then [] else [Part(Cell(Outbound(tag), true), up)]) +
      (if down == 0 then [] else [Part(Cell(Outbound(tag), false), down)])
  }

  /** Empty once white space is trimmed. */
  predicate Blank(s: string) {
    forall ch :: ch in s ==> ch in " \t\n\r" || ch == 11 as char || ch == 12 as char
  }

  function PartFor(c: Cell): Part -> int { (p: Part) => if p.cell == c then p.delta else 0 }

  /** What a list of parts adds to a cell. */
  function Asked(parts: seq<Part>, c: Cell): int { Sum(parts, PartFor(c)) }

  /** The amounts after performing the parts in order. */
  function Credit(m: Amounts, parts: seq<Part>): Amounts {
    if parts == [] then m
    else Bump(Credit(m, parts[..|parts| - 1]), parts[|parts| - 1].cell, parts[|parts| - 1].delta)
  }

  function Only(m: Amounts, rows: set<Row>): (r: Amounts)
    ensures forall c :: At(r, c) == if c.row in rows then At(m, c) else 0
  {
    map c | c in m && c.row in rows :: m[c]
  }

  function RowsOf(m: Amounts): set<Row> { set c | c in m :: c.row }

  /** Held bytes are split between the rows there are and the rows there are not. */
  lemma DepositSplits(committed: Amounts, dropped: Amounts, held: Amounts, rows: set<Row>)
    ensures var there, gone := Plus(committed, Only(held, rows)), Plus(dropped, Only(held, RowsOf(held) - rows));
      forall c ::
        && At(there, c) == At(committed, c) + (if c.row in rows then At(held, c) else 0)
        && At(gone, c) == At(dropped, c) + (if c.row in rows then 0 else At(held, c))
  {
    forall c ensures At(Only(held, RowsOf(held) - rows), c) == if c.row in rows then 0 else At(held, c) {
      if c in held {
        assert c.row in RowsOf(held);
      }
    }
  }

  /** Every row with a delta has been written. */
  predicate AllWritten(f: Flush) {
    forall c :: c in f.held && f.held[c] != 0 ==> c.row in f.written
  }

  predicate Enabled(s: State, step: Step) {
    match step
    case Begin(_) => true
    case Apply(i) => i < |s.adds| && s.adds[i] != []
    case StartFlush => true
    case Swap(f, _) => f < |s.flushes| && s.flushes[f].phase == Open && s.flushes[f].written == {}
    case Write(f, row, _) => f < |s.flushes| && s.flushes[f].phase == Open && row !in s.flushes[f].written
    case Commit(f) => f < |s.flushes| && s.flushes[f].phase == Open && AllWritten(s.flushes[f])
    case Fail(f) => f < |s.flushes| && s.flushes[f].phase == Open
    case Restore(f, c) => f < |s.flushes| && s.flushes[f].phase == Failed && c in s.flushes[f].held
  }

  function Next(s: State, step: Step): State
    requires Enabled(s, step)
  {
    match step
    case Begin(parts) => s.(adds := s.adds + [parts], requested := Credit(s.requested, parts))
    case Apply(i) =>
      var p := s.adds[i][0];
      s.(adds := s.adds[i := s.adds[i][1..]], counters := Bump(s.counters, p.cell, p.delta))
    case StartFlush => s.(flushes := s.flushes + [Flush(map[], {}, {}, Open)])
    case Swap(f, c) =>
      var fl := s.flushes[f];
      s.(counters := s.counters[c := 0], flushes := s.flushes[f := fl.(held := Bump(fl.held, c, At(s.counters, c)))])
    case Write(f, row, present) =>
      var fl := s.flushes[f];
      s.(flushes := s.flushes[f := fl.(written := fl.written + {row}, found := if present then fl.found + {row}
        else fl.found)])
    case Commit(f) =>
      var fl := s.flushes[f];
      s.(committed := Plus(s.committed, Only(fl.held, fl.found)),
         dropped := Plus(s.dropped, Only(fl.held, fl.written - fl.found)),
         flushes := s.flushes[f := Flush(map[], {}, {}, Done)])
    case Fail(f) => s.(flushes := s.flushes[f := s.flushes[f].(phase := Failed)])
    case Restore(f, c) =>
      var fl := s.flushes[f];
      s.(counters := Bump(s.counters, c, fl.held[c]), flushes := s.flushes[f := fl.(held := fl.held - {c})])
  }

  predicate Runs(s: State, steps: seq<Step>)
    decreases |steps|, 0
  {
    steps == [] ||
    (Runs(s, steps[..|steps| - 1]) && Enabled(Run(s, steps[..|steps| - 1]), steps[|steps| - 1]))
  }

  function Run(s: State, steps: seq<Step>): State
    requires Runs(s, steps)
    decreases |steps|, 1
  {
    if steps == [] then s
    else Next(Run(s, steps[..|steps| - 1]), steps[|steps| - 1])
  }

  // ---- conservation --------------------------------------------------------------------

  function HeldFor(c: Cell): Flush -> int { (f: Flush) => At(f.held, c) }

  function PendingFor(c: Cell): seq<Part> -> int { (parts: seq<Part>) => Asked(parts, c) }

  /** Bytes of a cell in flushes that have neither committed nor put them back. */
  function InFlight(s: State, c: Cell): int { Sum(s.flushes, HeldFor(c)) }

  /** Bytes of a cell in parts of adds not yet applied. */
  function NotApplied(s: State, c: Cell): int { Sum(s.adds, PendingFor(c)) }

  predicate Balanced(s: State, c: Cell) {
    At(s.committed, c) + At(s.dropped, c) + At(s.counters, c) + InFlight(s, c) + NotApplied(s, c) == At(s.requested, c)
  }

  lemma {:induction false} CreditAt(m: Amounts, parts: seq<Part>, c: Cell)
    ensures At(Credit(m, parts), c) == At(m, c) + Asked(parts, c)
  {
    if parts != [] {
      CreditAt(m, parts[..|parts| - 1], c);
    }
  }

  lemma {:induction false} AskedFirst(parts: seq<Part>, c: Cell)
    requires parts != []
    ensures Asked(parts, c) == PartFor(c)(parts[0]) + Asked(parts[1..], c)
  {
    if |parts| > 1 {
      AskedFirst(parts[..|parts| - 1], c);
      assert parts[..|parts| - 1][1..] == parts[1..][..|parts| - 2];
    }
  }

  lemma StepBalances(s: State, step: Step, c: Cell)
    requires Enabled(s, step) && Balanced(s, c)
    ensures Balanced(Next(s, step), c)
  {
    match step {
      case Begin(parts) =>
        SumSnoc(s.adds, parts, PendingFor(c));
        CreditAt(s.requested, parts, c);
      case Apply(i) =>
        SumUpdate(s.adds, i, s.adds[i][1..], PendingFor(c));
        AskedFirst(s.adds[i], c);
      case StartFlush =>
        SumSnoc(s.flushes, Flush(map[], {}, {}, Open), HeldFor(c));
      case _ =>
        FlushStepBalances(s, step, c);
    }
  }

  lemma FlushStepBalances(s: State, step: Step, c: Cell)
    requires Enabled(s, step) && Balanced(s, c)
    requires !step.Begin? && !step.Apply? && !step.StartFlush?
    ensures Balanced(Next(s, step), c)
  {
    var t := Next(s, step);
    SumUpdate(s.flushes, step.flush, t.flushes[step.flush], HeldFor(c));
  }

  /** Conservation: in every run, for every counter, what was committed, dropped,
      counted, swapped out or not yet applied adds up to what was asked for. */
  lemma {:induction false} BytesConserved(steps: seq<Step>, c: Cell)
    requires Runs(INITIAL, steps)
    ensures Balanced(Run(INITIAL, steps), c)
  {
    if steps != [] {
      var before := steps[..|steps| - 1];
      BytesConserved(before, c);
      StepBalances(Run(INITIAL, before), steps[|steps| - 1], c);
    }
  }

  /** Every transaction that wrote this row found it in the database. */
  predicate AlwaysFound(steps: seq<Step>, row: Row) {
    forall i :: 0 <= i < |steps| && steps[i].Write? && steps[i].row == row ==> steps[i].present
  }

  predicate NoneDropped(s: State, c: Cell) {
    && At(s.dropped, c) == 0
    && forall f :: 0 <= f < |s.flushes| && c.row in s.flushes[f].written ==> c.row in s.flushes[f].found
  }

  lemma {:induction false} FoundRowsDropNothing(steps: seq<Step>, c: Cell)
    requires Runs(INITIAL, steps) && AlwaysFound(steps, c.row)
    ensures NoneDropped(Run(INITIAL, steps), c)
  {
    if steps != [] {
      var before := steps[..|steps| - 1];
      FoundRowsDropNothing(before, c);
      StepDropsNothing(Run(INITIAL, before), steps[|steps| - 1], c);
    }
  }

  lemma StepDropsNothing(s: State, step: Step, c: Cell)
    requires Enabled(s, step) && NoneDropped(s, c)
    requires step.Write? && step.row == c.row ==> step.present
    ensures NoneDropped(Next(s, step), c)
  {}

  /** No add half done and no flush holding anything. */
  predicate Idle(s: State) {
    && (forall i :: 0 <= i < |s.adds| ==> s.adds[i] == [])
    && (forall f, c :: 0 <= f < |s.flushes| && c in s.flushes[f].held ==> s.flushes[f].held[c] == 0)
  }

  /** With nothing running, a counter whose row was always found is split between
      the database and memory without loss, whatever failed before. */
  lemma IdleTotals(steps: seq<Step>, c: Cell)
    requires Runs(INITIAL, steps) && AlwaysFound(steps, c.row) && Idle(Run(INITIAL, steps))
    ensures At(Run(INITIAL, steps).committed, c) + At(Run(INITIAL, steps).counters, c) ==
            At(Run(INITIAL, steps).requested, c)
  {
    var s := Run(INITIAL, steps);
    BytesConserved(steps, c);
    FoundRowsDropNothing(steps, c);
    SumZero(s.adds, PendingFor(c));
    SumZero(s.flushes, HeldFor(c));
  }

  // ---- quota ---------------------------------------------------------------------------

  const UNLIMITED := -1

  /** The published budgets, the users whose hook has fired since the last
      publication, and the hook calls so far. */
  datatype Quota = Quota(remaining: map<string, int>, fired: set<string>, calls: seq<string>)

  datatype Event = Publish(user: string, budget: int) | Traffic(user: string, up: int, down: int)

  function Fire(q: Quota, user: string): Quota {
    if user in q.fired then q else q.(fired := q.fired + {user}, calls := q.calls + [user])
  }

  function QuotaAfter(q: Quota, e: Event): Quota {
    match e
    case Publish(user, budget) =>
      if user == "" then q
      else q.(remaining := q.remaining[user := budget], fired := q.fired - {user})
    case Traffic(user, up, down) =>
      if Blank(user) || (up == 0 && down == 0) || user !in q.remaining || q.remaining[user] == UNLIMITED then q
      else
        var left := q.remaining[user] - (up + down);
        var r := q.(remaining := q.remaining[user := left]);
        if left <= 0 then Fire(r, user) else r
  }

  function QuotaRun(q: Quota, events: seq<Event>): Quota {
    if events == [] then q else QuotaAfter(QuotaRun(q, events[..|events| - 1]), events[|events| - 1])
  }

  function BytesOf(user: string): Event -> int {
    (e: Event) => if e.Traffic? && e.user == user then e.up + e.down else 0
  }

  predicate Counts(e: Event, user: string) {
    e.Traffic? && e.user == user && !(e.up == 0 && e.down == 0)
  }

  /** Events between two publications for this user, with byte counts not negative. */
  predicate OneCycle(events: seq<Event>, user: string) {
    forall i :: 0 <= i < |events| ==>
      match events[i]
      case Publish(u, _) => u != user
      case Traffic(u, up, down) => u == user ==> up >= 0 && down >= 0
  }

  predicate SomeTraffic(events: seq<Event>, user: string) {
    exists i :: 0 <= i < |events| && Counts(events[i], user)
  }

  /** Traffic has flowed in this cycle and its bytes have reached the budget. */
  predicate Overrun(events: seq<Event>, user: string, budget: int) {
    SomeTraffic(events, user) && Sum(events, BytesOf(user)) >= budget
  }

  function Is(user: string): string -> bool { (u: string) => u == user }

  function CallsFor(q: Quota, user: string): nat { Count(q.calls, Is(user)) }

  /** Where a user stands after some events of a cycle that began with this budget
      and this many hook calls. The counter may stick at the sentinel, but only once
      the hook has fired. */
  predicate CycleInv(q: Quota, user: string, budget: int, events: seq<Event>, calls: nat) {
    && user in q.remaining
    && CallsFor(q, user) == calls + (if user in q.fired then 1 else 0)
    && if budget == UNLIMITED then q.remaining[user] == UNLIMITED && user !in q.fired
       else
         && (user in q.fired <==> Overrun(events, user, budget))
         && (q.remaining[user] == budget - Sum(events, BytesOf(user))
              || (q.remaining[user] == UNLIMITED && user in q.fired))
  }

  lemma {:induction false} NoTrafficNoBytes(events: seq<Event>, user: string)
    requires !SomeTraffic(events, user)
    ensures Sum(events, BytesOf(user)) == 0
  {
    SumZero(events, BytesOf(user));
  }

  lemma SomeTrafficSnoc(events: seq<Event>, e: Event, user: string)
    ensures SomeTraffic(events + [e], user) <==> SomeTraffic(events, user) || Counts(e, user)
  {
    var all := events + [e];
    if SomeTraffic(events, user) {
      var i :| 0 <= i < |events| && Counts(events[i], user);
      assert Counts(all[i], user);
    }
    assert all[|events|] == e;
  }

  lemma CycleStep(q: Quota, user: string, budget: int, events: seq<Event>, calls: nat, e: Event)
    requires !Blank(user) && CycleInv(q, user, budget, events, calls) && OneCycle([e], user)
    ensures CycleInv(QuotaAfter(q, e), user, budget, events + [e], calls)
  {
    assert [e][0] == e;
    SumSnoc(events, e, BytesOf(user));
    SomeTrafficSnoc(events, e, user);
    if Counts(e, user) {
      OwnTraffic(q, user, budget, events, calls, e);
    } else {
      OtherEvent(q, e, user);
    }
  }

  lemma OtherEvent(q: Quota, e: Event, user: string)
    requires !Counts(e, user) && (e.Publish? ==> e.user != user)
    ensures var r := QuotaAfter(q, e);
      && (user in r.fired <==> user in q.fired) && CallsFor(r, user) == CallsFor(q, user)
      && (user in r.remaining <==> user in q.remaining)
           && (user in q.remaining ==> r.remaining[user] == q.remaining[user])
  {}

  /** What counted traffic of a user does to the user's own part of the quota. */
  lemma OwnTrafficStep(q: Quota, user: string, e: Event)
    requires !Blank(user) && user in q.remaining && Counts(e, user)
    ensures var r := QuotaAfter(q, e);
      && user in r.remaining
      && (q.remaining[user] == UNLIMITED ==> r == q)
      && (q.remaining[user] != UNLIMITED ==>
            var left := q.remaining[user] - (e.up + e.down);
            && r.remaining[user] == left
            && (user in r.fired <==> user in q.fired || left <= 0)
            && CallsFor(r, user) == CallsFor(q, user) + (if left <= 0 && user !in q.fired then 1 else 0))
  {
    CountSnoc(q.calls, user, Is(user));
  }

  lemma OwnTraffic(q: Quota, user: string, budget: int, events: seq<Event>, calls: nat, e: Event)
    requires !Blank(user) && CycleInv(q, user, budget, events, calls) && Counts(e, user) && e.up >= 0 && e.down >= 0
    ensures CycleInv(QuotaAfter(q, e), user, budget, events + [e], calls)
  {
    SumSnoc(events, e, BytesOf(user));
    SomeTrafficSnoc(events, e, user);
    if !SomeTraffic(events, user) {
      NoTrafficNoBytes(events, user);
    }
    OwnTrafficStep(q, user, e);
  }

  lemma {:induction false} CycleKeepsInv(q: Quota, user: string, budget: int, events: seq<Event>)
    requires !Blank(user) && OneCycle(events, user)
    ensures CycleInv(QuotaRun(QuotaAfter(q, Publish(user, budget)), events), user, budget, events, CallsFor(q, user))
  {
    if events != [] {
      var init, last := events[..|events| - 1], events[|events| - 1];
      CycleKeepsInv(q, user, budget, init);
      CycleStep(QuotaRun(QuotaAfter(q, Publish(user, budget)), init), user, budget, init, CallsFor(q, user), last);
      SplitLast(events);
    }
  }

  lemma {:induction false} BlankNeverFires(q: Quota, user: string, events: seq<Event>)
    requires Blank(user)
    ensures CallsFor(QuotaRun(q, events), user) == CallsFor(q, user)
  {
    if events != [] {
      var before := QuotaRun(q, events[..|events| - 1]);
      BlankNeverFires(q, user, events[..|events| - 1]);
      var e := events[|events| - 1];
      if e.Traffic? {
        CountSnoc(before.calls, e.user, Is(user));
      }
    }
  }

  /** After a budget is published the hook fires exactly once, at the first counted
      traffic that brings the bytes since then to the budget or past it, and never
      if the budget is the unlimited sentinel. Every prefix of a cycle is itself one,
      so the count steps from zero to one at exactly that event. */
  lemma HookFiresOncePerCycle(q: Quota, user: string, budget: int, events: seq<Event>)
    requires OneCycle(events, user)
    ensures CallsFor(QuotaRun(QuotaAfter(q, Publish(user, budget)), events), user)
         == CallsFor(q, user) + (if !Blank(user) && budget != UNLIMITED && Overrun(events, user, budget) then 1 else 0)
  {
    if Blank(user) {
      BlankNeverFires(QuotaAfter(q, Publish(user, budget)), user, events);
    } else {
      CycleKeepsInv(q, user, budget, events);
    }
  }

  /** The budget the server publishes: unlimited without a cap, else what is left of
      it, never below zero. `used` is the database total less the quota baseline. */
  function PublishedBudget(cap: int, used: int): int {
    if cap <= 0 then UNLIMITED
    else
      var left := cap - (if used < 0 then 0 else used);
      if left < 0 then 0 else left
  }

  /** For every cap and usage the server can publish, the hook fires exactly once per
      cycle if the user has a cap and traffic brings the usage to it, and otherwise
      never. In particular a user already over the cap trips it with the next byte. */
  lemma CappedUserTripsOnce(q: Quota, user: string, cap: int, used: int, events: seq<Event>)
    requires OneCycle(events, user) && !Blank(user)
    ensures var after := QuotaRun(QuotaAfter(q, Publish(user, PublishedBudget(cap, used))), events);
      var reached := SomeTraffic(events, user) && Sum(events, BytesOf(user)) + (if used < 0 then 0 else used) >= cap;
      CallsFor(after, user) == CallsFor(q, user) + (if cap > 0 && reached then 1 else 0)
  {
    HookFiresOncePerCycle(q, user, PublishedBudget(cap, used), events);
    TrafficNotNegative(events, user);
  }

  lemma {:induction false} TrafficNotNegative(events: seq<Event>, user: string)
    requires OneCycle(events, user)
    ensures Sum(events, BytesOf(user)) >= 0
  {
    if events != [] {
      TrafficNotNegative(events[..|events| - 1], user);
    }
  }

  // ---- the accumulator ------------------------------------------------------------------

  /** The users with a delta in either direction. */
  function UsersWith(m: Amounts): (r: set<string>)
    ensures forall user :: user in r <==> At(m, Cell(User(user), true)) != 0 || At(m, Cell(User(user), false)) != 0
  {
    set c | c in m && c.row.User? && m[c] != 0 :: c.row.id
  }

  lemma UsersWithSame(a: Amounts, b: Amounts)
    requires forall c :: At(a, c) == At(b, c)
    ensures UsersWith(a) == UsersWith(b)
  {}

  /** The commands of the transaction, up to the first that fails. */
  method Transact(begin: bool, write: Row -> bool, commit: bool, held: Amounts) returns (ok: bool)
    ensures ok <==> begin && commit && forall row :: row in RowsOf(held) ==> write(row)
  {
    ok := begin;
    var todo := RowsOf(held);
    while ok && todo != {}
      invariant todo <= RowsOf(held)
      invariant ok <==> begin && forall row :: row in RowsOf(held) - todo ==> write(row)
      decreases |todo|
    {
      var row :| row in todo;
      ok := write(row);
      todo := todo - {row};
    }
    ok := ok && commit;
  }

  class Accounting {
    const connected: bool
    var counters: Amounts
    var remaining: map<string, int>
    var fired: set<string>
    var calls: seq<string>
    /** What the database holds of each counter, and what matched no row. */
    var committed: Amounts
    var dropped: Amounts

    constructor (connected: bool)
      ensures this.connected == connected && counters == committed == dropped == map[]
      ensures Budgets() == Quota(map[], {}, [])
    {
      this.connected := connected;
      counters, committed, dropped := map[], map[], map[];
      remaining, fired, calls := map[], {}, [];
    }

    function Budgets(): Quota
      reads this
    {
      Quota(remaining, fired, calls)
    }

    method Add(user: string, session: string, up: int, down: int)
      modifies this`counters, this`remaining, this`fired, this`calls
      ensures counters == Credit(old(counters), AddParts(user, session, up, down))
      ensures Budgets() == QuotaAfter(old(Budgets()), Traffic(user, up, down))
    {
      if Blank(user) || (up == 0 && down == 0) {
        return;
      }
      AddDirection(user, session, true, up);
      AddDirection(user, session, false, down);
      CreditConcat(old(counters), Direction(user, session, true, up), Direction(user, session, false, down));
      if user in remaining {
        var current := remaining[user];
        if current != UNLIMITED {
          var left := current - (up + down);
          remaining := remaining[user := left];
          if left <= 0 {
            FireOverrunOnce(user);
          }
        }
      }
    }

    method AddDirection(user: string, session: string, isUp: bool, delta: int)
      modifies this`counters
      ensures counters == Credit(old(counters), Direction(user, session, isUp, delta))
    {
      if delta != 0 {
        var mine := Part(Cell(User(user), isUp), delta);
        counters := Bump(counters, mine.cell, delta);
        CreditConcat(old(counters), [], [mine]);
        if session != "" {
          var ofSession := Part(Cell(Session(JoinKey(user, session)), isUp), delta);
          counters := Bump(counters, ofSession.cell, delta);
          CreditTwo(old(counters), mine, ofSession);
        }
      }
    }

    method AddOutbound(tag: string, up: int, down: int)
      modifies this`counters
      ensures counters == Credit(old(counters), OutboundParts(tag, up, down))
    {
      if Blank(tag) || (up == 0 && down == 0) {
        return;
      }
      if up != 0 {
        counters := Bump(counters, Cell(Outbound(tag), true), up);
      }
      if down != 0 {
        counters := Bump(counters, Cell(Outbound(tag), false), down);
      }
      CreditTwo(old(counters), Part(Cell(Outbound(tag), true), up), Part(Cell(Outbound(tag), false), down));
    }

    method FireOverrunOnce(user: string)
      modifies this`fired, this`calls
      ensures Budgets() == Fire(old(Budgets()), user)
    {
      if user !in fired {
        fired := fired + {user};
        calls := calls + [user];
      }
    }

    method SetUserRemaining(user: string, budget: int)
      modifies this`remaining, this`fired
      ensures Budgets() == QuotaAfter(old(Budgets()), Publish(user, budget))
    {
      if user == "" {
        return;
      }
      remaining := remaining[user := budget];
      fired := fired - {user};
    }

    /** Drains every counter into one transaction. The callbacks say which commands
        succeed, and which rows the database has. */
    method Flush(begin: bool, write: Row -> bool, commit: bool, rows: set<Row>)
      returns (ok: bool, notified: set<string>)
      modifies this`counters, this`committed, this`dropped
      ensures ok && connected ==> forall c ::
                && At(counters, c) == 0
                && At(committed, c) == old(At(committed, c)) + (if c.row in rows then old(At(counters, c)) else 0)
                && At(dropped, c) == old(At(dropped, c)) + (if c.row in rows then 0 else old(At(counters, c)))
      ensures !ok || !connected ==> committed == old(committed) && dropped == old(dropped)
      ensures !ok || !connected ==> forall c :: At(counters, c) == old(At(counters, c))
      ensures !connected || (begin && commit && forall row :: write(row)) ==> ok
      ensures notified == if ok && connected then UsersWith(old(counters)) else {}
    {
      notified := {};
      if !connected {
        return true, notified;
      }
      var held := SwapAll();
      if held == map[] {
        UsersWithSame(old(counters), held);
        return true, notified;
      }
      ok := Transact(begin, write, commit, held);
      if !ok {
        counters := Plus(counters, held);
        return;
      }
      DepositSplits(committed, dropped, held, rows);
      committed := Plus(committed, Only(held, rows));
      dropped := Plus(dropped, Only(held, RowsOf(held) - rows));
      notified := UsersWith(held);
      UsersWithSame(old(counters), held);
    }

    method SwapAll() returns (held: Amounts)
      modifies this`counters
      ensures forall c :: At(counters, c) == 0 && At(held, c) == old(At(counters, c))
    {
      held := map[];
      var todo := counters.Keys;
      while todo != {}
        invariant todo <= counters.Keys
        invariant forall c :: c in todo ==> c !in held && c in old(counters) && counters[c] == old(counters)[c]
        invariant forall c :: c !in todo ==> At(counters, c) == 0 && At(held, c) == old(At(counters, c))
        decreases |todo|
      {
        var c :| c in todo;
        if counters[c] != 0 {
          held := held[c := counters[c]];
        }
        counters := counters[c := 0];
        todo := todo - {c};
      }
    }
  }

  lemma {:induction false} CreditConcat(m: Amounts, a: seq<Part>, b: seq<Part>)
    ensures Credit(m, a + b) == Credit(Credit(m, a), b)
  {
    if b == [] {
      assert a + b == a;
    } else {
      CreditConcat(m, a, b[..|b| - 1]);
      assert (a + b)[..|a + b| - 1] == a + b[..|b| - 1];
    }
  }

  lemma CreditTwo(m: Amounts, p: Part, q: Part)
    ensures Credit(m, []) == m && Credit(m, [p]) == Bump(m, p.cell, p.delta)
            && Credit(m, [q]) == Bump(m, q.cell, q.delta)
    ensures Credit(m, [p] + [q]) == Bump(Bump(m, p.cell, p.delta), q.cell, q.delta)
  {}
}

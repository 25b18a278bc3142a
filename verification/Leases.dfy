/** Reference-counted outbound dialers under hot reload
    (internal/outbounds/registry.go, and the member leases of balancer.go). */
module Leases {
  import opened Sequences

  /** The mutex-protected part of a trackedDialer. */
  datatype Tracked = Tracked(active: int, retired: bool, closed: bool)

  const FRESH := Tracked(0, false, false)

  function Acquired(t: Tracked): Tracked {
    t.(active := t.active + 1)
  }

  /** The dialer after retire, and whether the caller must now close the
      underlying one. */
  function Retired(t: Tracked): (Tracked, bool) {
    if t.retired then (t, false)
    else if t.active > 0 || t.closed then (t.(retired := true), false)
    else (t.(retired := true, closed := true), true)
  }

  function Dropped(t: Tracked): (Tracked, bool) {
    var d := if t.active > 0 then t.(active := t.active - 1) else t;
    if !d.retired || d.active > 0 || d.closed then (d, false) else (d.(closed := true), true)
  }

  class TrackedDialer {
    var active: int
    var retired: bool
    var closed: bool

    function Contents(): Tracked
      reads this
    {
      Tracked(active, retired, closed)
    }

    constructor ()
      ensures Contents() == FRESH
    {
      active, retired, closed := 0, false, false;
    }

    method Acquire()
      modifies this
      ensures Contents() == Acquired(old(Contents()))
    {
      active := active + 1;
    }

    method Retire() returns (closeNow: bool)
      modifies this
      ensures (Contents(), closeNow) == Retired(old(Contents()))
    {
      if retired {
        return false;
      }
      retired := true;
      if active > 0 || closed {
        return false;
      }
      closed := true;
      closeNow := true;
    }

    method Release() returns (closeNow: bool)
      modifies this
      ensures (Contents(), closeNow) == Dropped(old(Contents()))
    {
      if active > 0 {
        active := active - 1;
      }
      if !retired || active > 0 || closed {
        return false;
      }
      closed := true;
      closeNow := true;
    }
  }

  /** leasedDialer.Close runs its release once. */
  class LeasedDialer {
    const dialer: TrackedDialer
    var done: bool

    constructor (dialer: TrackedDialer)
      modifies dialer
      ensures this.dialer == dialer && !done
      ensures dialer.Contents() == Acquired(old(dialer.Contents()))
    {
      this.dialer := dialer;
      done := false;
      new;
      dialer.Acquire();
    }

    method Close() returns (closeNow: bool)
      modifies this, dialer
      ensures done
      ensures if old(done) then dialer.Contents() == old(dialer.Contents()) && !closeNow
              else (dialer.Contents(), closeNow) == Dropped(old(dialer.Contents()))
    {
      closeNow := false;
      if !done {
        done := true;
        closeNow := dialer.Release();
      }
    }
  }

  class Registry {
    var byTag: map<string, TrackedDialer>
    var defaultTag: string

    constructor ()
      ensures byTag.Keys == {"direct"} && fresh(byTag["direct"]) && byTag["direct"].Contents() == FRESH
      ensures defaultTag == "direct"
    {
      var direct := new TrackedDialer();
      byTag := map["direct" := direct];
      defaultTag := "direct";
    }

    /** A lease on the named dialer, on the default for an empty tag, else on the
        direct one, which is made when the registry has none. */
    method Resolve(tag: string) returns (lease: LeasedDialer, resolved: string)
      modifies byTag.Values
      ensures fresh(lease) && !lease.done
      ensures var wanted := if tag == "" then defaultTag else tag;
              if wanted in byTag then resolved == wanted && lease.dialer == byTag[wanted]
              else resolved == "direct" && (if "direct" in byTag then lease.dialer == byTag["direct"]
                else fresh(lease.dialer))
      ensures forall d: TrackedDialer | d in byTag.Values ::
                d.Contents() == if d == lease.dialer then Acquired(old(d.Contents())) else old(d.Contents())
    {
      resolved := if tag == "" then defaultTag else tag;
      var d: TrackedDialer;
      if resolved in byTag {
        d := byTag[resolved];
      } else {
        resolved := "direct";
        if resolved in byTag {
          d := byTag[resolved];
        } else {
          d := new TrackedDialer();
        }
      }
      lease := new LeasedDialer(d);
    }

    /** The exact tag or nothing: no default and no direct outbound in its place. */
    method ResolveExact(tag: string) returns (lease: LeasedDialer?)
      modifies byTag.Values
      ensures lease != null <==> tag != "" && tag in byTag
      ensures lease != null ==> fresh(lease) && !lease.done && lease.dialer == byTag[tag]
      ensures forall d: TrackedDialer | d in byTag.Values ::
                d.Contents() == if lease != null && d == lease.dialer then Acquired(old(d.Contents()))
                  else old(d.Contents())
    {
      if tag == "" || tag !in byTag {
        return null;
      }
      lease := new LeasedDialer(byTag[tag]);
    }

    /** Publish the next generation, then retire every dialer of the old one. */
    method Swap(next: map<string, TrackedDialer>, nextDefault: string) returns (toClose: set<TrackedDialer>)
      modifies this, byTag.Values
      ensures byTag == next && defaultTag == nextDefault
      ensures forall d: TrackedDialer | d in old(byTag.Values) :: d.Contents() == Retired(old(d.Contents())).0
      ensures toClose == set d: TrackedDialer | d in old(byTag.Values) && old(Retired(d.Contents()).1)
    {
      var todo := byTag.Values;
      byTag, defaultTag := next, nextDefault;
      toClose := {};
      while todo != {}
        invariant todo <= old(byTag.Values) && byTag == next && defaultTag == nextDefault
        invariant forall d: TrackedDialer | d in old(byTag.Values) ::
                    d.Contents() == if d in todo then old(d.Contents()) else Retired(old(d.Contents())).0
        invariant toClose == set d: TrackedDialer | d in old(byTag.Values) - todo && old(Retired(d.Contents()).1)
        decreases todo
      {
        var d :| d in todo;
        var closeNow := d.Retire();
        if closeNow {
          toClose := toClose + {d};
        }
        todo := todo - {d};
      }
    }
  }

  // ---- every interleaving ------------------------------------------------------------

  /** `takenOpen` remembers that the dialer was not closed when it was leased, and
      `resolved` that the lease came from the registry rather than a balancer. */
  datatype Lease = Lease(dialer: nat, released: bool, takenOpen: bool, resolved: bool)

  /** `toRetire` are dialers of replaced generations not retired yet, `toClose`
      dialers marked closed whose underlying Close has not run yet. `members` gives
      the dialers that each balancer was built with. */
  datatype State = State(
    dialers: seq<Tracked>, leases: seq<Lease>, byTag: map<string, nat>, ever: set<nat>,
    toRetire: set<nat>, toClose: set<nat>, closeCalls: seq<nat>, members: map<nat, set<nat>>)

  const START := State([FRESH], [], map["direct" := 0], {0}, {}, {}, [0], map[])

  /** A dial through a leased balancer, even one that outlives the lease, may lease any
      dialer the balancer was built with. A reload makes new dialers, builds its
      balancers on them and publishes them all. */
  datatype Step =
    | Resolve(tag: string)
    | ResolveDetached
    | MemberLease(balancer: nat, id: nat)
    | Publish(next: map<string, nat>, added: nat, members: map<nat, set<nat>>)
    | Retire(id: nat)
    | CloseLease(lease: nat)
    | CloseUnderlying(id: nat)

  predicate Enabled(s: State, step: Step) {
    match step
    case Resolve(tag) => tag in s.byTag && s.byTag[tag] < |s.dialers|
    case ResolveDetached => true
    case MemberLease(b, id) =>
      && b < |s.leases| && s.leases[b].dialer in s.members && id in s.members[s.leases[b].dialer]
      && id < |s.dialers|
    case Publish(next, added, members) =>
      && (forall t :: t in next ==> |s.dialers| <= next[t] < |s.dialers| + added)
      && members.Keys <= next.Values && (forall b :: b in members ==> members[b] <= next.Values)
    case Retire(id) => id in s.toRetire && id < |s.dialers|
    case CloseLease(l) => l < |s.leases| && s.leases[l].dialer < |s.dialers|
    case CloseUnderlying(id) => id in s.toClose && id < |s.closeCalls|
  }

  function Leased(s: State, id: nat, resolved: bool): State
    requires id < |s.dialers|
  {
    s.(dialers := s.dialers[id := Acquired(s.dialers[id])],
       leases := s.leases + [Lease(id, false, !s.dialers[id].closed, resolved)])
  }

  function Updated(s: State, id: nat, r: (Tracked, bool)): State
    requires id < |s.dialers|
  {
    s.(dialers := s.dialers[id := r.0], toClose := if r.1 then s.toClose + {id} else s.toClose)
  }

  function Next(s: State, step: Step): State
    requires Enabled(s, step)
  {
    match step
    case Resolve(tag) => Leased(s, s.byTag[tag], true)
    case ResolveDetached =>
      Leased(s.(dialers := s.dialers + [FRESH], closeCalls := s.closeCalls + [0]), |s.dialers|, true)
    case MemberLease(_, id) => Leased(s, id, false)
    case Publish(next, added, members) =>
      s.(dialers := s.dialers + seq(added, _ => FRESH), closeCalls := s.closeCalls + seq(added, _ => 0),
         byTag := next, ever := s.ever + next.Values, toRetire := s.toRetire + s.byTag.Values,
         members := s.members + members)
    case Retire(id) => Updated(s, id, Retired(s.dialers[id])).(toRetire := s.toRetire - {id})
    case CloseLease(l) =>
      var lease := s.leases[l];
      if lease.released then s
      else Updated(s, lease.dialer, Dropped(s.dialers[lease.dialer]))
        .(leases := s.leases[l := lease.(released := true)])
    case CloseUnderlying(id) =>
      s.(toClose := s.toClose - {id}, closeCalls := s.closeCalls[id := s.closeCalls[id] + 1])
  }

  function Run(s: State, steps: seq<Step>): State
    decreases steps
  {
    if steps == [] then s else Run(if Enabled(s, steps[0]) then Next(s, steps[0]) else s, steps[1..])
  }

  // ---- invariants -----------------------------------------------------------------------

  function HoldsLease(id: nat): Lease -> bool { (l: Lease) => l.dialer == id && !l.released }

  /** One dialer: its count, and when it is closed. */
  ghost predicate DialerInv(s: State, id: nat)
    requires id < |s.dialers| == |s.closeCalls|
  {
    var t := s.dialers[id];
    && t.active == Count(s.leases, HoldsLease(id))
    && (t.closed ==> t.retired)
    && (t.retired && t.active == 0 ==> t.closed)
    && s.closeCalls[id] + (if id in s.toClose then 1 else 0) == (if t.closed then 1 else 0)
  }

  predicate LeaseInv(s: State, l: Lease) {
    && l.dialer < |s.dialers|
    && (l.takenOpen && !l.released ==> !s.dialers[l.dialer].closed)
    && (!l.takenOpen ==> s.dialers[l.dialer].closed)
    && (l.resolved ==> l.takenOpen)
  }

  /** Published dialers are not retired, and every dialer that was ever published
      is published, about to be retired, or retired. */
  predicate Published(s: State) {
    && (forall t :: t in s.byTag ==>
         s.byTag[t] < |s.dialers| && !s.dialers[s.byTag[t]].retired && s.byTag[t] !in s.toRetire)
    && (forall id :: id in s.toRetire ==> id < |s.dialers|)
    && (forall id :: id in s.toClose ==> id < |s.dialers|)
    && (forall id :: id in s.ever ==>
         id < |s.dialers| && (id in s.byTag.Values || id in s.toRetire || s.dialers[id].retired))
    && s.byTag.Values <= s.ever
  }

  ghost predicate Inv(s: State) {
    && |s.dialers| == |s.closeCalls|
    && (forall id: nat :: id < |s.dialers| ==> DialerInv(s, id))
    && (forall l :: 0 <= l < |s.leases| ==> LeaseInv(s, s.leases[l]))
    && Published(s)
  }

  lemma LeasedKeepsInv(s: State, id: nat, resolved: bool)
    requires Inv(s) && id < |s.dialers| && (resolved ==> !s.dialers[id].closed)
    ensures Inv(Leased(s, id, resolved))
  {
    var n := Leased(s, id, resolved);
    forall k: nat | k < |n.dialers| ensures DialerInv(n, k) {
      assert DialerInv(s, k);
      CountSnoc(s.leases, n.leases[|s.leases|], HoldsLease(k));
    }
    forall l | 0 <= l < |n.leases| ensures LeaseInv(n, n.leases[l]) {
      assert l < |s.leases| ==> LeaseInv(s, s.leases[l]);
    }
  }

  lemma AddedKeepsInv(s: State, added: nat)
    requires Inv(s)
    ensures Inv(s.(dialers := s.dialers + seq(added, _ => FRESH), closeCalls := s.closeCalls + seq(added, _ => 0)))
  {
    var n := s.(dialers := s.dialers + seq(added, _ => FRESH), closeCalls := s.closeCalls + seq(added, _ => 0));
    forall k: nat | k < |n.dialers| ensures DialerInv(n, k) {
      if k < |s.dialers| {
        assert DialerInv(s, k);
      } else {
        forall i | 0 <= i < |s.leases| ensures !HoldsLease(k)(s.leases[i]) {
          assert LeaseInv(s, s.leases[i]);
        }
        CountNone(s.leases, HoldsLease(k));
      }
    }
    forall l | 0 <= l < |n.leases| ensures LeaseInv(n, n.leases[l]) {
      assert LeaseInv(s, s.leases[l]);
    }
  }

  lemma PublishKeepsInv(s: State, next: map<string, nat>, added: nat, members: map<nat, set<nat>>)
    requires Inv(s) && Enabled(s, Publish(next, added, members))
    ensures Inv(Next(s, Publish(next, added, members)))
  {
    var m := s.(dialers := s.dialers + seq(added, _ => FRESH), closeCalls := s.closeCalls + seq(added, _ => 0));
    var n := Next(s, Publish(next, added, members));
    AddedKeepsInv(s, added);
    forall k: nat | k < |n.dialers| ensures DialerInv(n, k) {
      assert DialerInv(m, k);
    }
    forall l | 0 <= l < |n.leases| ensures LeaseInv(n, n.leases[l]) {
      assert LeaseInv(m, m.leases[l]);
    }
  }

  lemma RetireKeepsInv(s: State, id: nat)
    requires Inv(s) && Enabled(s, Retire(id))
    ensures Inv(Next(s, Retire(id)))
  {
    var n := Next(s, Retire(id));
    assert DialerInv(s, id);
    forall k: nat | k < |n.dialers| ensures DialerInv(n, k) {
      assert DialerInv(s, k);
    }
    forall l | 0 <= l < |n.leases| ensures LeaseInv(n, n.leases[l]) {
      assert LeaseInv(s, s.leases[l]);
      if s.leases[l].dialer == id && !s.leases[l].released {
        CountPositive(s.leases, l, HoldsLease(id));
      }
    }
  }

  lemma CloseLeaseKeepsInv(s: State, l: nat)
    requires Inv(s) && Enabled(s, CloseLease(l)) && !s.leases[l].released
    ensures Inv(Next(s, CloseLease(l)))
  {
    var n := Next(s, CloseLease(l));
    var id := s.leases[l].dialer;
    assert DialerInv(s, id) && LeaseInv(s, s.leases[l]);
    CountPositive(s.leases, l, HoldsLease(id));
    forall k: nat | k < |n.dialers| ensures DialerInv(n, k) {
      assert DialerInv(s, k);
      CountUpdate(s.leases, l, n.leases[l], HoldsLease(k));
    }
    assert n.dialers[id].active == Count(n.leases, HoldsLease(id)) by { assert DialerInv(n, id); }
    forall i | 0 <= i < |n.leases| ensures LeaseInv(n, n.leases[i]) {
      assert LeaseInv(s, s.leases[i]);
      if i != l && s.leases[i].dialer == id && !s.leases[i].released {
        assert n.leases[i] == s.leases[i];
        CountPositive(n.leases, i, HoldsLease(id));
      }
    }
  }

  lemma CloseUnderlyingKeepsInv(s: State, id: nat)
    requires Inv(s) && Enabled(s, CloseUnderlying(id))
    ensures Inv(Next(s, CloseUnderlying(id)))
  {
    var n := Next(s, CloseUnderlying(id));
    forall k: nat | k < |n.dialers| ensures DialerInv(n, k) {
      assert DialerInv(s, k);
    }
    forall l | 0 <= l < |n.leases| ensures LeaseInv(n, n.leases[l]) {
      assert LeaseInv(s, s.leases[l]);
    }
  }

  lemma NextKeepsInv(s: State, step: Step)
    requires Inv(s) && Enabled(s, step)
    ensures Inv(Next(s, step))
  {
    match step
    case Resolve(tag) =>
      assert DialerInv(s, s.byTag[tag]);
      LeasedKeepsInv(s, s.byTag[tag], true);
    case ResolveDetached =>
      AddedKeepsInv(s, 1);
      assert seq(1, _ => FRESH) == [FRESH] && seq(1, _ => 0) == [0];
      LeasedKeepsInv(s.(dialers := s.dialers + [FRESH], closeCalls := s.closeCalls + [0]), |s.dialers|, true);
    case MemberLease(_, id) => LeasedKeepsInv(s, id, false);
    case Publish(next, added, members) => PublishKeepsInv(s, next, added, members);
    case Retire(id) => RetireKeepsInv(s, id);
    case CloseLease(l) => if !s.leases[l].released { CloseLeaseKeepsInv(s, l); }
    case CloseUnderlying(id) => CloseUnderlyingKeepsInv(s, id);
  }

  lemma {:induction false} RunKeepsInv(s: State, steps: seq<Step>)
    requires Inv(s)
    ensures Inv(Run(s, steps))
    decreases steps
  {
    if steps != [] {
      if Enabled(s, steps[0]) {
        NextKeepsInv(s, steps[0]);
      }
      RunKeepsInv(if Enabled(s, steps[0]) then Next(s, steps[0]) else s, steps[1..]);
    }
  }

  // ---- what every run guarantees ------------------------------------------------------------

  lemma ReachedInv(s: State, steps: seq<Step>)
    requires s == Run(START, steps)
    ensures Inv(s)
  {
    assert "direct" in START.byTag && START.byTag["direct"] == 0;
    RunKeepsInv(START, steps);
  }

  /** The underlying dialer is closed at most once, and only after retirement. */
  lemma ClosedOnceAndOnlyRetired(s: State, steps: seq<Step>, id: nat)
    requires s == Run(START, steps) && id < |s.dialers|
    ensures |s.closeCalls| == |s.dialers| && s.closeCalls[id] <= 1
    ensures s.closeCalls[id] == 1 ==> s.dialers[id].retired
  {
    ReachedInv(s, steps);
    assert DialerInv(s, id);
  }

  /** A lease taken before the close keeps the dialer open until it is released; a
      lease from the registry is always such a lease. */
  lemma LeaseKeepsOpen(s: State, steps: seq<Step>, l: nat)
    requires s == Run(START, steps) && l < |s.leases| && !s.leases[l].released
    requires s.leases[l].takenOpen || s.leases[l].resolved
    ensures s.leases[l].dialer < |s.dialers| == |s.closeCalls|
    ensures !s.dialers[s.leases[l].dialer].closed && s.closeCalls[s.leases[l].dialer] == 0
  {
    ReachedInv(s, steps);
    assert LeaseInv(s, s.leases[l]);
    assert DialerInv(s, s.leases[l].dialer);
  }

  /** Nothing leaks: once its generation has been replaced, the pending retirements
      and closes have run, and its leases are released, a published dialer has been
      closed exactly once. */
  lemma ReplacedAndIdleIsClosed(s: State, steps: seq<Step>, id: nat)
    requires s == Run(START, steps) && id in s.ever && id !in s.byTag.Values
    requires id !in s.toRetire && id !in s.toClose
    requires forall l :: 0 <= l < |s.leases| && s.leases[l].dialer == id ==> s.leases[l].released
    ensures id < |s.dialers| == |s.closeCalls| && s.dialers[id].closed && s.closeCalls[id] == 1
  {
    ReachedInv(s, steps);
    assert DialerInv(s, id);
    CountNone(s.leases, HoldsLease(id));
  }

  /** An unreleased lease has a closed dialer under it exactly when the dialer was
      already closed as the lease was taken. */
  lemma ClosedUnderLeaseIff(s: State, steps: seq<Step>, l: nat)
    requires s == Run(START, steps) && l < |s.leases| && !s.leases[l].released
    ensures s.leases[l].dialer < |s.dialers|
    ensures s.dialers[s.leases[l].dialer].closed <==> !s.leases[l].takenOpen
  {
    ReachedInv(s, steps);
    assert LeaseInv(s, s.leases[l]);
  }

  /** The reload that publishes a balancer over one member. */
  const WITH_BALANCER := Publish(map["direct" := 1, "b" := 2], 2, map[2 := {1}])

  /** The reload that replaces both. */
  const WITHOUT_BALANCER := Publish(map["direct" := 3], 1, map[])

  lemma BalancerPublished(s: State)
    requires Enabled(START, WITH_BALANCER) ==> s == Next(START, WITH_BALANCER)
    ensures Enabled(START, WITH_BALANCER)
    ensures s.dialers == [FRESH, FRESH, FRESH] && s.leases == [] && s.byTag == map["direct" := 1, "b" := 2]
    ensures s.members == map[2 := {1}]
  {
    var next := map["direct" := 1, "b" := 2];
    assert next["direct"] in next.Values && next["b"] in next.Values;
  }

  lemma BalancerReplaced(s: State)
    requires |s.dialers| == 3 && s.byTag == map["direct" := 1, "b" := 2]
    ensures Enabled(s, WITHOUT_BALANCER) && 1 in Next(s, WITHOUT_BALANCER).toRetire
  {
    assert s.byTag["direct"] in s.byTag.Values;
  }

  /** Such leases exist: a balancer is resolved, a reload replaces its generation and
      closes its idle member, and a dial through the old balancer leases that member. */
  lemma ClosedMemberCanBeLeased(s: State)
    requires s == Run(START, [WITH_BALANCER, Resolve("b"), WITHOUT_BALANCER, Retire(1), MemberLease(0, 1)])
    ensures |s.leases| == 2 && s.leases[1] == Lease(1, false, false, false)
  {
    var steps := [WITH_BALANCER, Resolve("b"), WITHOUT_BALANCER, Retire(1), MemberLease(0, 1)];
    var s1 := if Enabled(START, WITH_BALANCER) then Next(START, WITH_BALANCER) else START;
    BalancerPublished(s1);
    RunSteps(START, steps);
    assert Run(START, steps) == Run(s1, steps[1..]);
    LateLease(s1, s);
  }

  lemma LateLease(s1: State, s: State)
    requires s1.dialers == [FRESH, FRESH, FRESH] && s1.leases == [] && s1.byTag == map["direct" := 1, "b" := 2]
    requires s1.members == map[2 := {1}]
    requires s == Run(s1, [Resolve("b"), WITHOUT_BALANCER, Retire(1), MemberLease(0, 1)])
    ensures |s.leases| == 2 && s.leases[1] == Lease(1, false, false, false)
  {
    var steps := [Resolve("b"), WITHOUT_BALANCER, Retire(1), MemberLease(0, 1)];
    var s2 := Next(s1, steps[0]);
    BalancerReplaced(s2);
    var s3 := Next(s2, steps[1]);
    var s4 := Next(s3, steps[2]);
    RunSteps(s1, steps);
    RunSteps(s2, steps[1..]);
    RunSteps(s3, steps[2..]);
    RunSteps(s4, steps[3..]);
  }

  lemma RunSteps(s: State, steps: seq<Step>)
    requires steps != [] && Enabled(s, steps[0])
    ensures Run(s, steps) == Run(Next(s, steps[0]), steps[1..])
  {}
}

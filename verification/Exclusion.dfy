/** Mutual exclusion per task and bounded concurrency per task type. */
module Exclusion {
  import opened Registry
  import opened Protocol
  import opened LocalInvariant

  /** Which program counters go with which holdings. */
  predicate Shaped(x: Actor) {
    && (x.role.Replay? ==> x.registered && !x.leased && (x.pc.Deliver? || x.pc.Ended? || x.pc.Releasing?))
    && (x.role.Handler? && !x.registered ==>
          !x.leased && (x.pc.Received? || x.pc.Releasing? || x.pc == Settle(Requeue)))
    && (x.role.Handler? && x.registered ==> !x.pc.Received?)
    && (x.role.Handler? && x.registered && !x.leased ==> x.pc.Releasing? || x.pc == Settle(Requeue))
  }

  predicate Works(s: State, a: nat) {
    a in s.actors && s.actors[a].registered
  }

  /** One actor per registered task id, and each of those ids is in the registry. */
  ghost predicate Exclusive(s: State) {
    && (forall a :: a in s.actors ==> a < s.next && Shaped(s.actors[a]))
    && (forall a, b :: Works(s, a) && Works(s, b) && s.actors[a].Id() == s.actors[b].Id() ==> a == b)
    && (forall a :: Works(s, a) ==> s.actors[a].Id() in s.inflight)
  }

  /** Nothing is registered on behalf of nobody. */
  ghost predicate Covered(s: State) {
    forall t :: t in s.inflight ==> exists a :: Works(s, a) && s.actors[a].Id() == t
  }

  /** At most one replay, and only while the scan says so. */
  ghost predicate OneReplay(s: State) {
    && (forall a :: a in s.actors && s.actors[a].role.Replay? ==> s.scan.Scanning? && s.scan.replaying)
    && (forall a, b ::
          a in s.actors && b in s.actors && s.actors[a].role.Replay? && s.actors[b].role.Replay? ==> a == b)
  }

  /** The scan waits for a replay only while there is one. */
  ghost predicate ReplayAwaited(s: State) {
    Replaying(s) ==> exists a :: IsReplay(s, a)
  }

  predicate IsReplay(s: State, a: nat) { a in s.actors && s.actors[a].role.Replay? }

  predicate Leases(s: State, a: nat, t: TaskType) {
    a in s.actors && s.actors[a].leased && s.actors[a].role.Key().kind == t
  }

  ghost function Lessees(s: State, t: TaskType): set<nat> {
    set a | a in s.actors && Leases(s, a, t)
  }

  /** The limiter counts the unreleased leases of each type and never lets them exceed the limit. */
  ghost predicate Bounded(limits: Limits, s: State) {
    forall t :: Held(s.counts, t) == |Lessees(s, t)| && |Lessees(s, t)| <= limits.For(t)
  }

  // ----- What a step does to the roster of actors -----

  predicate Replaying(s: State) { s.scan.Scanning? && s.scan.replaying }

  /** Nobody joins, leaves or moves. */
  ghost predicate Same(s: State, s': State) {
    && s'.actors == s.actors && s'.inflight == s.inflight && s'.counts == s.counts && s.next <= s'.next
    && (s'.scan == s.scan || (!Replaying(s) && !Replaying(s')))
  }

  /** Actor `a` only moves its program counter. */
  ghost predicate Repointed(s: State, s': State, a: nat) {
    && a in s.actors && a in s'.actors
    && s'.actors == s.actors[a := s.actors[a].(pc := s'.actors[a].pc)]
    && s'.inflight == s.inflight && s'.counts == s.counts && s'.scan == s.scan && s.next <= s'.next
    && Shaped(s'.actors[a])
  }

  /** Actor `a`, new or so far unregistered, becomes `x`; if that registers it, its task was free. */
  ghost predicate Joined(limits: Limits, s: State, s': State, a: nat, x: Actor) {
    && (a in s.actors ==> !s.actors[a].registered && !s.actors[a].leased && s.actors[a].role == x.role)
    && s'.actors == s.actors[a := x] && Shaped(x) && a < s'.next && s.next <= s'.next
    && (x.registered ==> x.Id() !in s.inflight)
    && s'.inflight == (if x.registered then s.inflight + {x.Id()} else s.inflight)
    && (x.leased ==> CanAcquire(limits, s.counts, x.role.Key().kind))
    && s'.counts == (if x.leased then Acquired(s.counts, x.role.Key().kind) else s.counts)
    && (if x.role.Replay? then !Replaying(s) && Replaying(s') else s'.scan == s.scan)
  }

  ghost predicate Left(s: State, s': State, a: nat) {
    && a in s.actors
    && s'.actors == s.actors - {a} && s.next <= s'.next
    && s'.inflight == (if s.actors[a].registered then s.inflight - {s.actors[a].Id()} else s.inflight)
    && s'.counts == (if s.actors[a].leased then Released(s.counts, s.actors[a].role.Key().kind) else s.counts)
    && (if s.actors[a].role.Replay? then !Replaying(s') else s'.scan == s.scan)
  }

  ghost predicate Emptied(s: State, s': State) {
    s'.actors == map[] && s'.inflight == {} && s'.counts == map[] && s'.scan == Idle && s.next <= s'.next
  }

  ghost predicate Effect(limits: Limits, s: State, step: Step, s': State) {
    match step
    case Local(a, _) => Repointed(s, s', a)
    case RepublishCopy(a, _, _) => Repointed(s, s', a)
    case SettleCopy(a) => Repointed(s, s', a)
    case Receive(c) => Same(s, s') || (s.next in s'.actors && Joined(limits, s, s', s.next, s'.actors[s.next]))
    case ScanNext => Same(s, s') || (s.next in s'.actors && Joined(limits, s, s', s.next, s'.actors[s.next]))
    case Register(a) => Repointed(s, s', a) || (a in s'.actors && Joined(limits, s, s', a, s'.actors[a]))
    case Release(a) => Left(s, s', a)
    case Crash => Emptied(s, s')
    case _ => Same(s, s')
  }

  lemma ProcessNeverReturns(cfg: Config, m: Message, v: View, c: Choice)
    requires ProcessorPc(v.pc)
    ensures !ProcessStep(cfg, m, v, c).pc.Received?
  {}

  lemma FailureNeverReturns(cfg: Config, m: Message, v: View, c: Choice)
    requires FailurePc(v.pc)
    ensures !FailureStep(cfg, m, v, c).pc.Received?
  {}

  /** The local code keeps an actor's shape: it never goes back to the start and a replay only delivers. */
  lemma LocalShape(cfg: Config, x: Actor, v: View, c: Choice)
    requires Shaped(x) && v.pc == x.pc && LocalPc(x.role, x.pc)
    ensures Shaped(x.(pc := LocalStep(cfg, x.role, v, c).pc))
  {
    if v.pc.Deliver? {
      DeliverStays(cfg, v, c);
    } else if v.pc.Ended? {
    } else if ProcessorPc(v.pc) {
      ProcessNeverReturns(cfg, x.role.msg, v, c);
    } else {
      FailureNeverReturns(cfg, x.role.msg, v, c);
    }
  }

  lemma LocalEffect(cfg: Config, s: State, a: nat, c: Choice)
    requires Enabled(cfg, s, Local(a, c)) && Exclusive(s)
    ensures Repointed(s, s.Put(a, LocalStep(cfg, s.actors[a].role, s.See(a), c)), a)
  {
    LocalShape(cfg, s.actors[a], s.See(a), c);
  }

  lemma RegisterEffect(cfg: Config, s: State, a: nat)
    requires Exclusive(s) && a in s.actors && s.actors[a].pc.Received?
    ensures Effect(cfg.limits, s, Register(a), RegisterStep(cfg, s, a))
  {
    assert Shaped(s.actors[a]);
  }

  lemma ScanNextEffect(cfg: Config, s: State)
    requires Exclusive(s) && s.scan.Scanning? && !s.scan.replaying && s.scan.rest != []
    ensures Effect(cfg.limits, s, ScanNext, ScanNextStep(s))
  {
    assert s.next !in s.actors;
  }

  lemma ReceiveEffect(cfg: Config, s: State, c: nat)
    requires Exclusive(s) && c in s.copies
    ensures Effect(cfg.limits, s, Receive(c), ReceiveStep(s, c))
  {
    assert s.next !in s.actors;
  }

  lemma RepublishEffect(cfg: Config, s: State, a: nat, confirmed: bool, effect: bool)
    requires Exclusive(s) && a in s.actors && s.actors[a].role.Handler? && s.actors[a].pc.Republish?
    ensures Repointed(s, RepublishStep(cfg, s, a, confirmed, effect), a)
  {
    assert Shaped(s.actors[a]);
  }

  lemma SettleEffect(cfg: Config, s: State, a: nat)
    requires Exclusive(s) && Enabled(cfg, s, SettleCopy(a))
    ensures Repointed(s, SettleStep(s, a), a)
  {
    assert Shaped(s.actors[a]);
  }

  lemma ReleaseEffect(cfg: Config, s: State, a: nat)
    requires a in s.actors && s.actors[a].pc.Releasing?
    ensures Left(s, ReleaseStep(s, a), a)
  {}

  lemma StepEffect(cfg: Config, s: State, step: Step)
    requires Enabled(cfg, s, step) && Exclusive(s)
    ensures Effect(cfg.limits, s, step, Apply(cfg, s, step))
  {
    match step
    case Receive(c) => ReceiveEffect(cfg, s, c);
    case Register(a) => RegisterEffect(cfg, s, a);
    case ScanNext => ScanNextEffect(cfg, s);
    case Local(a, c) => LocalEffect(cfg, s, a, c);
    case RepublishCopy(a, confirmed, effect) => RepublishEffect(cfg, s, a, confirmed, effect);
    case SettleCopy(a) => SettleEffect(cfg, s, a);
    case Release(a) => ReleaseEffect(cfg, s, a);
    case _ =>
  }

  // ----- Every effect keeps the invariants -----

  lemma ExclusiveMoves(s: State, s': State, a: nat)
    requires Exclusive(s) && Repointed(s, s', a)
    ensures Exclusive(s')
  {
    forall b | Works(s', b) ensures Works(s, b) && s'.actors[b].Id() == s.actors[b].Id() {}
  }

  lemma ExclusiveJoins(limits: Limits, s: State, s': State, a: nat, x: Actor)
    requires Exclusive(s) && Joined(limits, s, s', a, x)
    ensures Exclusive(s')
  {
    forall b | Works(s', b) && b != a ensures Works(s, b) && s'.actors[b].Id() == s.actors[b].Id() {}
  }

  lemma ExclusiveLeaves(s: State, s': State, a: nat)
    requires Exclusive(s) && Left(s, s', a)
    ensures Exclusive(s')
  {
    forall b | Works(s', b) ensures Works(s, b) && b != a && s'.actors[b].Id() == s.actors[b].Id() {}
  }

  lemma ExclusiveKept(limits: Limits, s: State, step: Step, s': State)
    requires Exclusive(s) && Effect(limits, s, step, s')
    ensures Exclusive(s')
  {
    match step
    case Local(a, _) => ExclusiveMoves(s, s', a);
    case RepublishCopy(a, _, _) => ExclusiveMoves(s, s', a);
    case SettleCopy(a) => ExclusiveMoves(s, s', a);
    case Receive(_) => if !Same(s, s') { ExclusiveJoins(limits, s, s', s.next, s'.actors[s.next]); }
    case ScanNext => if !Same(s, s') { ExclusiveJoins(limits, s, s', s.next, s'.actors[s.next]); }
    case Register(a) =>
      if Repointed(s, s', a) { ExclusiveMoves(s, s', a); } else { ExclusiveJoins(limits, s, s', a, s'.actors[a]); }
    case Release(a) => ExclusiveLeaves(s, s', a);
    case _ =>
  }

  lemma StillCovered(s: State, s': State)
    requires Covered(s) && s'.inflight <= s.inflight
    requires forall a :: Works(s, a) && s.actors[a].Id() in s'.inflight ==>
      Works(s', a) && s'.actors[a].Id() == s.actors[a].Id()
    ensures Covered(s')
  {
    forall t | t in s'.inflight
      ensures exists a :: Works(s', a) && s'.actors[a].Id() == t
    {
      var a :| Works(s, a) && s.actors[a].Id() == t;
      assert Works(s', a) && s'.actors[a].Id() == t;
    }
  }

  lemma NewlyCovered(s: State, s': State, a: nat)
    requires Covered(s) && Works(s', a) && s'.inflight == s.inflight + {s'.actors[a].Id()}
    requires forall b :: Works(s, b) ==> Works(s', b) && s'.actors[b].Id() == s.actors[b].Id()
    ensures Covered(s')
  {
    forall t | t in s'.inflight
      ensures exists b :: Works(s', b) && s'.actors[b].Id() == t
    {
      if t in s.inflight {
        var b :| Works(s, b) && s.actors[b].Id() == t;
        assert Works(s', b) && s'.actors[b].Id() == t;
      }
    }
  }

  lemma CoveredKept(limits: Limits, s: State, step: Step, s': State)
    requires Exclusive(s) && Covered(s) && Effect(limits, s, step, s')
    ensures Covered(s')
  {
    if s'.inflight <= s.inflight {
      StillCovered(s, s');
    } else {
      NewlyCovered(s, s', if step.Register? then step.actor else s.next);
    }
  }

  lemma OneReplayKept(limits: Limits, s: State, step: Step, s': State)
    requires Exclusive(s) && OneReplay(s) && Effect(limits, s, step, s')
    ensures OneReplay(s')
  {}

  lemma StillAwaited(s: State, s': State)
    requires ReplayAwaited(s) && Replaying(s)
    requires forall a :: IsReplay(s, a) ==> IsReplay(s', a)
    ensures ReplayAwaited(s')
  {
    var a :| IsReplay(s, a);
    assert IsReplay(s', a);
  }

  lemma ReplayAwaitedKept(limits: Limits, s: State, step: Step, s': State)
    requires Exclusive(s) && ReplayAwaited(s) && Effect(limits, s, step, s')
    ensures ReplayAwaited(s')
  {
    if Replaying(s') {
      if Replaying(s) {
        StillAwaited(s, s');
      } else {
        assert IsReplay(s', if step.Register? then step.actor else s.next);
      }
    }
  }

  lemma SameLessees(s: State, s': State, t: TaskType)
    requires forall a :: Leases(s', a, t) <==> Leases(s, a, t)
    ensures Lessees(s', t) == Lessees(s, t)
  {
    forall a ensures a in Lessees(s', t) <==> a in Lessees(s, t) {
      assert Leases(s', a, t) <==> Leases(s, a, t);
    }
  }

  lemma JoinCounts(limits: Limits, s: State, s': State, a: nat, x: Actor, t: TaskType)
    requires Bounded(limits, s) && Joined(limits, s, s', a, x)
    ensures Held(s'.counts, t) == |Lessees(s', t)| && |Lessees(s', t)| <= limits.For(t)
  {
    if x.leased && x.role.Key().kind == t {
      assert Lessees(s', t) == Lessees(s, t) + {a};
    } else {
      SameLessees(s, s', t);
    }
  }

  lemma LeaveCounts(limits: Limits, s: State, s': State, a: nat, t: TaskType)
    requires Bounded(limits, s) && Left(s, s', a)
    ensures Held(s'.counts, t) == |Lessees(s', t)| && |Lessees(s', t)| <= limits.For(t)
  {
    if Leases(s, a, t) {
      assert a in Lessees(s, t);
      assert Lessees(s', t) == Lessees(s, t) - {a};
    } else {
      SameLessees(s, s', t);
    }
  }

  lemma BoundedKept(limits: Limits, s: State, step: Step, s': State)
    requires Bounded(limits, s) && Effect(limits, s, step, s')
    ensures Bounded(limits, s')
  {
    forall t
      ensures Held(s'.counts, t) == |Lessees(s', t)| && |Lessees(s', t)| <= limits.For(t)
    {
      if step.Release? {
        LeaveCounts(limits, s, s', step.actor, t);
      } else if step.Crash? {
        assert Lessees(s', t) == {};
      } else if step.Register? && Joined(limits, s, s', step.actor, s'.actors[step.actor]) {
        JoinCounts(limits, s, s', step.actor, s'.actors[step.actor], t);
      } else if (step.Receive? || step.ScanNext?) && !Same(s, s') {
        JoinCounts(limits, s, s', s.next, s'.actors[s.next], t);
      } else {
        SameLessees(s, s', t);
      }
    }
  }
}

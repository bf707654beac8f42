/** How a copy passes through the system, and an entry through the scan, in every reachable state: said by who is at
    work and which leases are out, not by the registries that the worker keeps of them. */
module Passage {
  import opened Registry
  import opened Protocol
  import opened Exclusion
  import opened Settlement
  import opened Retries
  import opened Worker

  /** Some actor is working on the task id. */
  ghost predicate Busy(s: State, id: TaskId) {
    exists a :: Works(s, a) && s.actors[a].Id() == id
  }

  /** All leases of the type are out; a setting below one counts as one. */
  ghost predicate Full(limits: Limits, s: State, t: TaskType) {
    |Lessees(s, t)| >= 1 && |Lessees(s, t)| >= if t == Analysis then limits.analysis else limits.jobPosting
  }

  lemma BusyIsInflight(s: State, id: TaskId)
    requires Exclusive(s) && Covered(s)
    ensures id in s.inflight <==> Busy(s, id)
  {}

  lemma FullCannotAcquire(cfg: Config, s: State, t: TaskType)
    requires Bounded(cfg.limits, s)
    ensures CanAcquire(cfg.limits, s.counts, t) <==> !Full(cfg.limits, s, t)
  {
    assert Held(s.counts, t) == |Lessees(s, t)|;
  }

  lemma OneMoreLessee(s: State, s': State, a: nat, t: TaskType)
    requires a in s.actors && a in s'.actors && !s.actors[a].leased && s'.actors == s.actors[a := s'.actors[a]]
    requires s'.actors[a].role == s.actors[a].role
    ensures Lessees(s', t) ==
      Lessees(s, t) + if s'.actors[a].leased && s.actors[a].role.Key().kind == t then {a} else {}
  {
    forall b ensures Leases(s', b, t) <==> Leases(s, b, t) || (b == a && Leases(s', a, t)) {}
  }

  /** A delivered copy that is no task leaves the queue; a task's copy stays with the broker, held by a new handler that
      has nothing yet. */
  lemma ReceiveDecides(cfg: Config, run: seq<State>, steps: seq<Step>, n: nat, c: nat)
    requires IsRun(cfg, run, steps) && n < |steps| && steps[n] == Receive(c)
    ensures c in run[n].copies && run[n].copies[c].holder.None? && run[n].next !in run[n].actors
    ensures var s := run[n]; var s' := run[n + 1];
      match s.copies[c].packet
      case Garbage =>
        && s'.copies == s.copies - {c} && s'.actors == s.actors && s'.log == s.log + [Discarded(s.next)]
      case Task(m) =>
        && s'.copies == s.copies[c := Copy(Task(m), Some(s.next), s.copies[c].superseded)]
        && s'.actors == s.actors[s.next := Actor(Handler(c, m), Received, false, false)]
        && s'.log == s.log + [Taken(s.next)]
  {
    RunInv(cfg, run, steps, n);
    assert Enabled(cfg, run[n], steps[n]) && run[n + 1] == Apply(cfg, run[n], steps[n]);
  }

  /** A handler settles exactly its own copy: acknowledged, the copy is gone; otherwise it waits again. */
  lemma SettleDecides(cfg: Config, run: seq<State>, steps: seq<Step>, n: nat, a: nat)
    requires IsRun(cfg, run, steps) && n < |steps| && steps[n] == SettleCopy(a)
    ensures var s := run[n]; a in s.actors && s.actors[a].role.Handler? && s.actors[a].pc.Settle? && Holds(s, a)
    ensures var s := run[n]; var s' := run[n + 1]; var c := s.actors[a].role.copy; var m := s.actors[a].role.msg;
      match s.actors[a].pc.how
      case Ack(why) => s'.copies == s.copies - {c} && s'.log == s.log + [Acked(a, m, why)]
      case Requeue =>
        s'.copies == s.copies[c := Copy(Task(m), None, s.copies[c].superseded)] && s'.log == s.log + [Requeued(a)]
  {
    var s := run[n];
    RunInv(cfg, run, steps, n);
    assert Enabled(cfg, s, steps[n]) && run[n + 1] == Apply(cfg, s, steps[n]);
    assert Owes(s, a) && Holds(s, a);
  }

  lemma RepublishStepIs(cfg: Config, s: State, a: nat, confirmed: bool, effect: bool)
    requires a in s.actors && s.actors[a].role.Handler? && s.next !in s.copies && s.actors[a].role.copy in s.copies
    ensures var x := s.actors[a]; var m := x.role.msg; var s' := RepublishStep(cfg, s, a, confirmed, effect);
      && s'.actors == s.actors[a := x.(pc := Settle(if confirmed then Ack(Republished) else Requeue))]
      && s'.copies.Keys == s.copies.Keys + (if confirmed || effect then {s.next} else {})
      && (s.next in s'.copies ==> s'.copies[s.next] == Copy(Task(cfg.Retried(m)), None, false))
  {}

  /** A republish the broker confirms ends in an acknowledgement, one it does not in a requeue. The new copy counts one
      retry more and carries the maximum that applied: the message's own, or else the setting for its type. */
  lemma RepublishDecides(cfg: Config, run: seq<State>, steps: seq<Step>, n: nat, a: nat, confirmed: bool, effect: bool)
    requires IsRun(cfg, run, steps) && n < |steps| && steps[n] == RepublishCopy(a, confirmed, effect)
    ensures a in run[n].actors && run[n].actors[a].role.Handler? && RetryLeft(cfg, run[n].actors[a].role.msg)
    ensures run[n].next !in run[n].copies
    ensures var s := run[n]; var s' := run[n + 1]; var x := s.actors[a]; var m := x.role.msg;
      var limit := if m.maxRetryCount != 0 then m.maxRetryCount
                   else if m.taskType == Analysis then cfg.analysisMaxRetry else cfg.jobPostingMaxRetry;
      var next := Message(m.taskId, m.messageId, m.taskType, m.retryCount + 1, limit);
      && s'.actors == s.actors[a := x.(pc := Settle(if confirmed then Ack(Republished) else Requeue))]
      && s'.copies.Keys == s.copies.Keys + (if confirmed || effect then {s.next} else {})
      && (s.next in s'.copies ==> s'.copies[s.next] == Copy(Task(next), None, false))
  {
    var s := run[n];
    RunInv(cfg, run, steps, n);
    assert Enabled(cfg, s, steps[n]) && run[n + 1] == RepublishStep(cfg, s, a, confirmed, effect);
    assert Owes(s, a) && Holds(s, a);
    RepublishStepIs(cfg, s, a, confirmed, effect);
  }

  lemma RegisterStepIs(cfg: Config, s: State, a: nat, busy: bool, full: bool)
    requires a in s.actors && !s.actors[a].registered && !s.actors[a].leased
    requires s.actors[a].Id() in s.inflight <==> busy
    requires CanAcquire(cfg.limits, s.counts, s.actors[a].role.Key().kind) <==> !full
    ensures var x := s.actors[a]; var s' := RegisterStep(cfg, s, a);
      var decided := if busy then Actor(x.role, Settle(Requeue), false, false)
                     else if full then Actor(x.role, Settle(Requeue), true, false)
                     else Actor(x.role, Start, true, true);
      && s'.actors == s.actors[a := decided]
      && s'.inflight == s.inflight + (if decided.registered then {x.Id()} else {})
  {
    if busy {
    } else if full {
    } else {
    }
  }

  /** A new message is requeued unregistered exactly if some actor works on its task; it is requeued, its id
      registered until after the nack, exactly if nobody does but all leases of its type are out; in every other case
      it gets a lease and starts. */
  lemma RegisterDecides(cfg: Config, run: seq<State>, steps: seq<Step>, n: nat, a: nat)
    requires IsRun(cfg, run, steps) && n < |steps| && steps[n] == Register(a)
    ensures a in run[n].actors
    ensures var s := run[n]; var s' := run[n + 1]; var x := s.actors[a]; var t := x.role.Key().kind;
      var decided := if Busy(s, x.Id()) then Actor(x.role, Settle(Requeue), false, false)
                     else if Full(cfg.limits, s, t) then Actor(x.role, Settle(Requeue), true, false)
                     else Actor(x.role, Start, true, true);
      && s'.actors == s.actors[a := decided]
      && s'.inflight == s.inflight + (if decided.registered then {x.Id()} else {})
      && Lessees(s', t) == Lessees(s, t) + (if decided.leased then {a} else {})
  {
    var s := run[n];
    RunInv(cfg, run, steps, n);
    assert Enabled(cfg, s, steps[n]) && run[n + 1] == RegisterStep(cfg, s, a);
    assert Shaped(s.actors[a]);
    BusyIsInflight(s, s.actors[a].Id());
    FullCannotAcquire(cfg, s, s.actors[a].role.Key().kind);
    RegisterStepIs(cfg, s, a, Busy(s, s.actors[a].Id()), Full(cfg.limits, s, s.actors[a].role.Key().kind));
    OneMoreLessee(s, run[n + 1], a, s.actors[a].role.Key().kind);
  }

  /** The scan replays the next entry from the start, as a registered actor without a lease, exactly if nobody works
      on its task; otherwise it passes the entry over and touches nothing. */
  lemma ScanDecides(cfg: Config, run: seq<State>, steps: seq<Step>, n: nat)
    requires IsRun(cfg, run, steps) && n < |steps| && steps[n] == ScanNext
    ensures run[n].scan.Scanning? && run[n].scan.rest != []
    ensures var s := run[n]; var e := s.scan.rest[0]; var s' := run[n + 1];
      s' == if Busy(s, e.key.id) then s.(scan := Scanning(s.scan.rest[1..], false))
            else s.(scan := Scanning(s.scan.rest[1..], true), inflight := s.inflight + {e.key.id},
                    actors := s.actors[s.next := Actor(Replay(e.key), Deliver(EnsureRequestId, e, 1), true, false)],
                    next := s.next + 1)
  {
    RunInv(cfg, run, steps, n);
    assert Enabled(cfg, run[n], steps[n]) && run[n + 1] == Apply(cfg, run[n], steps[n]);
    BusyIsInflight(run[n], run[n].scan.rest[0].key.id);
  }

  /** A scan under way can always go on: it is waiting for a replay that is there, and that is never stuck, or it can
      take the next entry, or it is through. */
  lemma ScanGoesOn(cfg: Config, run: seq<State>, steps: seq<Step>, n: nat)
    requires IsRun(cfg, run, steps) && n < |run| && run[n].scan.Scanning?
    ensures (exists a :: IsReplay(run[n], a))
         || Enabled(cfg, run[n], if run[n].scan.rest != [] then ScanNext else ScanStop)
  {
    RunInv(cfg, run, steps, n);
  }

  lemma NobodyElse(s: State, s': State, a: nat)
    requires Exclusive(s) && Works(s, a) && s'.actors == s.actors - {a}
    ensures !Busy(s', s.actors[a].Id())
  {
    forall b | Works(s', b) ensures s'.actors[b].Id() != s.actors[a].Id() {
      assert Works(s, b) && b != a;
    }
  }

  /** An actor that is done is gone, and if it was registered its task is free at once. A handler leaves the scan alone;
      once its replay is done the scan goes on with the rest of its entries, and only a replay that aborts ends it. */
  lemma ReleaseDecides(cfg: Config, run: seq<State>, steps: seq<Step>, n: nat, a: nat)
    requires IsRun(cfg, run, steps) && n < |steps| && steps[n] == Release(a)
    ensures a in run[n].actors && run[n].actors[a].pc.Releasing?
    ensures var s := run[n]; var s' := run[n + 1]; var x := s.actors[a];
      && s'.actors == s.actors - {a} && s'.copies == s.copies && s'.spool == s.spool
      && (x.registered ==> x.Id() !in s'.inflight && !Busy(s', x.Id()))
      && (x.role.Handler? ==> s'.scan == s.scan)
      && (x.role.Replay? ==> s.scan.Scanning?)
      && (x.role.Replay? ==> s'.scan == if x.pc.abortScan then Idle else Scanning(s.scan.rest, false))
  {
    var s := run[n];
    RunInv(cfg, run, steps, n);
    assert Enabled(cfg, s, steps[n]) && run[n + 1] == ReleaseStep(s, a);
    assert Shaped(s.actors[a]);
    if s.actors[a].registered {
      assert Works(s, a);
      NobodyElse(s, run[n + 1], a);
    }
  }
}

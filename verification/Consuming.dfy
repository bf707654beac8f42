/** The two loops of the worker around its code for one message: taking a message off the queue, and scanning
    the spool. Whatever happens inside, they give back every registration and every lease they took. */
module Consuming {
  import opened Registry
  import opened Protocol
  import opened Progress
  import opened Concurrency
  import opened Handling

  function TypeName(t: TaskType): string { if t == Analysis then "ANALYSIS" else "JOB_POSTING_INGEST" }

  /** What a handler does to the registry, the limiter and the broker, in order. */
  datatype Effect = Registered | Leased | Published | Settled(how: Protocol.Settlement) | LeaseReleased | Unregistered

  /** How a handler's end is settled, given the broker's answer to a republish. */
  ghost function SettlementOf(end: Pc, confirmed: bool): Protocol.Settlement
    requires end.Settle? || end.Republish?
  {
    if end.Settle? then end.how else if confirmed then Ack(Republished) else Requeue
  }

  /** Acquiring and releasing leaves what is held of each type. */
  lemma AcquiredReleased(counts: Counts, t: TaskType, u: TaskType)
    ensures Held(Released(Acquired(counts, t), t), u) == Held(counts, u)
  {}

  ghost predicate WellServed(env: Environment) { exists answer :: Healthy(env, answer) }

  /** A replay of an open task's entry, with everything in order, completes the task, clears its slot and lets the
      scan go on. */
  lemma HealthyReplay(cfg: Config, role: Role, env: Environment, v: View, w: View)
    requires WellServed(env) && role.Replay? && v.pc.Deliver? && v.pc.at == EnsureRequestId && v.task.status == Open
    requires Leads(cfg, role, env, v, w) && w.pc.Releasing?
    ensures w == View(Releasing(false), None, v.inLedger, ServerTask(Success, true),
                      v.log + Told(EnsureRequestId, v.pc.entry))
  {
    var answer :| Healthy(env, answer);
    var n := Rank(cfg, 1, v.pc);
    assert forall u: View :: Patient(u.pc, env(u), 1) by {
      forall u: View ensures u.pc.Llm? ==> env(u).enough {
        assert u.pc.Start? || InOrderAt(env, answer, u);
      }
    }
    LeadsToTheEnd(cfg, 1, role, env, v, w, n);
    HealthyIsInOrder(cfg, env, answer, v.pc);
    HealthyDelivery(cfg, role, v, env, answer, n);
  }

  class Consumer {
    const registry: InflightRegistry<TaskId>
    const limiter: TaskTypeConcurrencyLimiter
    /** Whether a recovery scan is running. */
    var recovering: bool

    constructor (registry: InflightRegistry<TaskId>, limiter: TaskTypeConcurrencyLimiter)
      ensures this.registry == registry && this.limiter == limiter && !recovering
    {
      this.registry, this.limiter := registry, limiter;
      recovering := false;
    }

    /** A handler that holds its registration and its lease: the code for the message, then the settlement. */
    method ProcessAndSettle(worker: TaskWorker, patience: nat, confirmed: bool) returns (end: Pc, effects: seq<Effect>)
      requires worker.role.Handler? && forall w: View :: Patient(w.pc, worker.env(w), patience)
      modifies worker
      ensures Done(worker.role, end) && worker.From(old(worker.Now(Start)), end)
      ensures effects == (if end.Republish? then [Published] else []) + [Settled(SettlementOf(end, confirmed))]
    {
      end := worker.HandleMessage(patience);
      effects := if end.Republish? then [Published] else [];
      var how := Requeue;
      if end.Settle? {
        how := end.how;
      } else if confirmed {
        how := Ack(Republished);
      }
      effects := effects + [Settled(how)];
    }

    /** A handler that holds its registration: a lease, if there is one to be had, around the processing. */
    method HandleRegistered(worker: TaskWorker, patience: nat, confirmed: bool) returns (end: Pc, effects: seq<Effect>)
      requires worker.role.Handler? && limiter.Valid()
      requires forall w: View :: Patient(w.pc, worker.env(w), patience)
      modifies limiter, worker
      ensures limiter.Valid() && limiter.open == old(limiter.open)
      ensures forall t :: Held(limiter.counts, t) == old(Held(limiter.counts, t))
      ensures if AtLimit(limiter.limits, old(limiter.open), worker.role.msg.taskType)
        then
          && end == Settle(Requeue) && effects == [Settled(Requeue)]
          && worker.Now(end) == old(worker.Now(Settle(Requeue)))
        else
          && Done(worker.role, end) && worker.From(old(worker.Now(Start)), end)
          && effects == [Leased] + (if end.Republish? then [Published] else [])
                        + [Settled(SettlementOf(end, confirmed))] + [LeaseReleased]
    {
      var t := worker.role.msg.taskType;
      var lease := limiter.TryAcquire(t);
      if lease == null {
        return Settle(Requeue), [Settled(Requeue)];
      }
      end, effects := ProcessAndSettle(worker, patience, confirmed);
      lease.Release();
      effects := [Leased] + effects + [LeaseReleased];
      forall u ensures Held(limiter.counts, u) == old(Held(limiter.counts, u)) {
        AcquiredReleased(old(limiter.counts), t, u);
      }
    }

    /** A message whose task is being worked on, or whose type is at its limit, is requeued untouched, the latter
        before its registration is given back; any other is processed by the handler's code and settled before its
        lease and then its registration are given back. The registry and the limiter end as they were. */
    method HandleIncomingMessage(worker: TaskWorker, patience: nat, confirmed: bool)
      returns (end: Pc, effects: seq<Effect>)
      requires worker.role.Handler? && limiter.Valid()
      requires forall w: View :: Patient(w.pc, worker.env(w), patience)
      modifies registry, limiter, worker
      ensures limiter.Valid() && limiter.open == old(limiter.open) && registry.taskTypes == old(registry.taskTypes)
      ensures forall t :: Held(limiter.counts, t) == old(Held(limiter.counts, t))
      ensures var m := worker.role.msg;
        if m.taskId in old(registry.taskTypes) || AtLimit(limiter.limits, old(limiter.open), m.taskType)
        then end == Settle(Requeue) && worker.Now(end) == old(worker.Now(Settle(Requeue)))
        else Done(worker.role, end) && worker.From(old(worker.Now(Start)), end)
      ensures var m := worker.role.msg;
        if m.taskId in old(registry.taskTypes) then effects == [Settled(Requeue)]
        else if AtLimit(limiter.limits, old(limiter.open), m.taskType)
        then effects == [Registered] + [Settled(Requeue)] + [Unregistered]
        else effects == [Registered] + ([Leased] + (if end.Republish? then [Published] else [])
                        + [Settled(SettlementOf(end, confirmed))] + [LeaseReleased]) + [Unregistered]
    {
      var m := worker.role.msg;
      var registered := registry.Register(m.taskId, Some(TypeName(m.taskType)));
      if !registered {
        return Settle(Requeue), [Settled(Requeue)];
      }
      end, effects := HandleRegistered(worker, patience, confirmed);
      registry.Release(m.taskId);
      effects := [Registered] + effects + [Unregistered];
    }

    /** Replay one listed entry, unless its task is being worked on. */
    method ReplayUnlessBusy(e: Entry, worker: TaskWorker) returns (aborted: bool)
      requires worker.role == Replay(e.key)
      modifies registry, worker
      ensures registry.taskTypes == old(registry.taskTypes)
      ensures if e.key.id in registry.taskTypes then !aborted && unchanged(worker)
              else worker.From(old(worker.Now(Deliver(EnsureRequestId, e, 1))), Releasing(aborted))
    {
      aborted := false;
      var name := if e.taskType.Some? then Some(TypeName(e.taskType.value)) else None;
      var registered := registry.Register(e.key.id, name);
      if registered {
        aborted := worker.ReplayEntry(e);
        registry.Release(e.key.id);
      }
    }

    /** Unless a scan is running already, the scan visits the listed entries in order and replays each one whose
        task nobody works on; it ends early only when told to stop or at an error that is not a refusal, and takes
        no lease. `workers[i]` is the world of `entries[i]`, and `stops(i)` says whether the worker is stopping when
        its turn comes. */
    method RecoverPendingDeliveries(entries: seq<Entry>, workers: seq<TaskWorker>, stops: nat -> bool)
      returns (visited: nat, aborted: bool)
      requires |workers| == |entries|
      requires forall i :: 0 <= i < |entries| ==> workers[i].role == Replay(entries[i].key)
      requires forall i, j :: 0 <= i < j < |workers| ==> workers[i] != workers[j]
      modifies registry, workers, this`recovering
      ensures registry.taskTypes == old(registry.taskTypes) && recovering == old(recovering) && visited <= |entries|
      ensures forall i: nat :: i < visited ==> !old(recovering) && !stops(i)
      ensures visited < |entries| ==> old(recovering) || stops(visited) || aborted
      ensures aborted ==> visited > 0 && entries[visited - 1].key.id !in old(registry.taskTypes)
      ensures forall i :: 0 <= i < |entries| ==>
        if entries[i].key.id in old(registry.taskTypes) || i >= visited
        then unchanged(workers[i])
        else workers[i].From(old(workers[i].Now(Deliver(EnsureRequestId, entries[i], 1))),
                             Releasing(aborted && i == visited - 1))
    {
      visited, aborted := 0, false;
      if recovering {
        return;
      }
      recovering := true;
      while visited < |entries| && !stops(visited) && !aborted
        invariant visited <= |entries| && registry.taskTypes == old(registry.taskTypes)
        invariant forall i: nat :: i < visited ==> !stops(i)
        invariant aborted ==> visited > 0 && entries[visited - 1].key.id !in old(registry.taskTypes)
        invariant forall i :: 0 <= i < |entries| && (entries[i].key.id in old(registry.taskTypes) || i >= visited) ==>
          unchanged(workers[i])
        invariant forall i :: 0 <= i < visited && entries[i].key.id !in old(registry.taskTypes) ==>
          workers[i].From(old(workers[i].Now(Deliver(EnsureRequestId, entries[i], 1))),
                          Releasing(aborted && i == visited - 1))
        decreases |entries| - visited
      {
        aborted := ReplayUnlessBusy(entries[visited], workers[visited]);
        visited := visited + 1;
      }
      recovering := false;
    }

    /** With everything in order, a scan of open tasks visits every entry, and leaves every task it replays
        successful and out of the spool. */
    method RecoverInGoodOrder(entries: seq<Entry>, workers: seq<TaskWorker>) returns (visited: nat)
      requires |workers| == |entries| && !recovering
      requires forall i :: 0 <= i < |entries| ==>
        workers[i].role == Replay(entries[i].key) && WellServed(workers[i].env) && workers[i].task.status == Open
      requires forall i, j :: 0 <= i < j < |workers| ==> workers[i] != workers[j]
      modifies registry, workers, this`recovering
      ensures registry.taskTypes == old(registry.taskTypes) && visited == |entries|
      ensures forall i :: 0 <= i < |entries| ==>
        if entries[i].key.id in old(registry.taskTypes) then unchanged(workers[i])
        else workers[i].slot == None && workers[i].task == ServerTask(Success, true)
             && workers[i].log == old(workers[i].log) + Told(EnsureRequestId, entries[i])
    {
      var aborted;
      visited, aborted := RecoverPendingDeliveries(entries, workers, i => false);
      forall i | 0 <= i < visited && entries[i].key.id !in old(registry.taskTypes)
        ensures !(aborted && i == visited - 1)
        ensures workers[i].Now(Releasing(false)) == View(Releasing(false), None, old(workers[i].inLedger),
                  ServerTask(Success, true), old(workers[i].log) + Told(EnsureRequestId, entries[i]))
      {
        HealthyReplay(workers[i].cfg, workers[i].role, workers[i].env,
                      old(workers[i].Now(Deliver(EnsureRequestId, entries[i], 1))),
                      workers[i].Now(Releasing(aborted && i == visited - 1)));
      }
    }
  }
}

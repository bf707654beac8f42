/** The two registries that handlers and the recovery scan share: bounded leases and the inflight map. */
module Concurrency {
  import opened Registry

  class TaskTypeConcurrencyLease {
    const limiter: TaskTypeConcurrencyLimiter
    const taskType: TaskType
    var released: bool

    constructor (limiter: TaskTypeConcurrencyLimiter, taskType: TaskType)
      ensures this.limiter == limiter && this.taskType == taskType && !released
    {
      this.limiter := limiter;
      this.taskType := taskType;
      released := false;
    }

    /** The first call gives the slot back; any later one changes nothing. */
    method Release()
      requires limiter.Valid() && (!released ==> this in limiter.open)
      modifies this, limiter
      ensures released && limiter.Valid()
      ensures limiter.open == old(limiter.open) - {this}
      ensures limiter.counts == if old(released) then old(limiter.counts) else Released(old(limiter.counts), taskType)
    {
      if released {
        assert this !in limiter.open;
        return;
      }
      released := true;
      limiter.ReleaseSlot(this);
    }
  }

  ghost function OfType(leases: set<TaskTypeConcurrencyLease>, t: TaskType): set<TaskTypeConcurrencyLease> {
    set l | l in leases && l.taskType == t
  }

  lemma OneMore(leases: set<TaskTypeConcurrencyLease>, lease: TaskTypeConcurrencyLease, t: TaskType)
    requires lease !in leases
    ensures |OfType(leases + {lease}, t)| == |OfType(leases, t)| + if lease.taskType == t then 1 else 0
  {
    assert OfType(leases + {lease}, t) == OfType(leases, t) + if lease.taskType == t then {lease} else {};
  }

  /** As many leases of the type are out as its setting allows; a setting below one counts as one. */
  ghost predicate AtLimit(limits: Limits, leases: set<TaskTypeConcurrencyLease>, t: TaskType) {
    && |OfType(leases, t)| >= 1
    && |OfType(leases, t)| >= if t == Analysis then limits.analysis else limits.jobPosting
  }

  class TaskTypeConcurrencyLimiter {
    const limits: Limits
    var counts: Counts
    /** The leases handed out and not yet released. */
    ghost var open: set<TaskTypeConcurrencyLease>

    ghost predicate Counted()
      reads this
    {
      && (forall l :: l in open ==> l.limiter == this)
      && (forall t :: Held(counts, t) == |OfType(open, t)| && |OfType(open, t)| <= limits.For(t))
    }

    /** Every count is the number of unreleased leases of its type, and within the type's limit. */
    ghost predicate Valid()
      reads this, open
    {
      Counted() && forall l :: l in open ==> !l.released
    }

    constructor (limits: Limits)
      ensures Valid() && open == {} && counts == map[] && this.limits == limits
    {
      this.limits := limits;
      counts := map[];
      open := {};
      new;
      assert forall t :: OfType(open, t) == {};
    }

    /** A lease is refused exactly when as many of its type are out as its setting allows, or one if that is less
        than one. */
    method TryAcquire(t: TaskType) returns (lease: TaskTypeConcurrencyLease?)
      requires Valid()
      modifies this
      ensures Valid()
      ensures lease == null <==> AtLimit(limits, old(open), t)
      ensures lease == null ==> counts == old(counts) && open == old(open)
      ensures lease != null ==> fresh(lease) && lease.limiter == this && lease.taskType == t && !lease.released
      ensures lease != null ==> counts == Acquired(old(counts), t) && open == old(open) + {lease}
    {
      var current := if t in counts then counts[t] else 0;
      if current >= limits.For(t) {
        return null;
      }
      counts := counts[t := current + 1];
      lease := new TaskTypeConcurrencyLease(this, t);
      forall u ensures |OfType(open + {lease}, u)| == |OfType(open, u)| + if u == t then 1 else 0 {
        OneMore(open, lease, u);
      }
      open := open + {lease};
    }

    method ReleaseSlot(lease: TaskTypeConcurrencyLease)
      requires Counted() && lease in open && lease.released && forall l :: l in open && l != lease ==> !l.released
      modifies this
      ensures Valid()
      ensures counts == Released(old(counts), lease.taskType) && open == old(open) - {lease}
    {
      var t := lease.taskType;
      forall u ensures |OfType(open, u)| == |OfType(open - {lease}, u)| + if u == t then 1 else 0 {
        OneMore(open - {lease}, lease, u);
        assert open - {lease} + {lease} == open;
      }
      var current := if t in counts then counts[t] else 0;
      if current <= 1 {
        counts := counts - {t};
      } else {
        counts := counts[t := current - 1];
      }
      open := open - {lease};
    }
  }

  class InflightRegistry<Id(==)> {
    /** The task type under which each task id is being worked on. */
    var taskTypes: map<Id, string>

    constructor ()
      ensures taskTypes == map[]
    {
      taskTypes := map[];
    }

    /** Only the first of several registrations of a task id succeeds until it is released. */
    method Register(taskId: Id, taskType: Option<string>) returns (ok: bool)
      modifies this
      ensures ok <==> taskId !in old(taskTypes)
      ensures ok ==> taskId in taskTypes && taskTypes == old(taskTypes)[taskId := taskTypes[taskId]]
      ensures ok && taskType.Some? && taskType.value != "" ==> taskTypes[taskId] == taskType.value
      ensures ok && (taskType.None? || taskType.value == "") ==> taskTypes[taskId] == "unknown"
      ensures !ok ==> taskTypes == old(taskTypes)
    {
      if taskId in taskTypes {
        return false;
      }
      var name := "unknown";
      if taskType.Some? && taskType.value != "" {
        name := taskType.value;
      }
      taskTypes := taskTypes[taskId := name];
      return true;
    }

    method Release(taskId: Id)
      modifies this
      ensures taskTypes == old(taskTypes) - {taskId}
    {
      taskTypes := taskTypes - {taskId};
    }
  }
}

module Registry {
  datatype Option<T> = None | Some(value: T)

  datatype TaskType = Analysis | JobPosting

  type Counts = map<TaskType, nat>

  datatype Limits = Limits(analysis: int, jobPosting: int)
  {
    function For(t: TaskType): nat {
      var n := if t == Analysis then analysis else jobPosting;
      if n < 1 then 1 else n
    }
  }

  function Held(counts: Counts, t: TaskType): nat {
    if t in counts then counts[t] else 0
  }

  predicate CanAcquire(limits: Limits, counts: Counts, t: TaskType) {
    Held(counts, t) < limits.For(t)
  }

  function Acquired(counts: Counts, t: TaskType): Counts {
    counts[t := Held(counts, t) + 1]
  }

  function Released(counts: Counts, t: TaskType): Counts {
    if Held(counts, t) <= 1 then counts - {t} else counts[t := counts[t] - 1]
  }

  lemma SubsetSize<T>(a: set<T>, b: set<T>)
    requires a <= b
    ensures |a| <= |b| && (|a| == |b| ==> a == b)
  {
    if a != {} {
      var x :| x in a;
      SubsetSize(a - {x}, b - {x});
    }
  }
}

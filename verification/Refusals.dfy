/** Refusals are real: over every run, whatever is given up as refused was answered with an error that is not for
    trying again, or its task had failed. */
module Refusals {
  import opened Protocol
  import opened LocalInvariant
  import opened Exclusion
  import opened Durability
  import opened Justification
  import opened DeadLetters
  import opened Worker

  /** In this step a processor working on `m` is refused. */
  ghost predicate RefusesProcessor(s: State, step: Step, m: Message) {
    && step.Local? && step.choice.reply == Failed(NonRetryable)
    && step.actor in s.actors && ProcessorPc(s.actors[step.actor].pc)
    && s.actors[step.actor].role.Handler? && s.actors[step.actor].role.msg == m
  }

  /** In this step a delivery of the task is refused. */
  ghost predicate RefusesDelivery(s: State, step: Step, k: TaskKey) {
    && step.Local? && step.choice.reply == Failed(NonRetryable)
    && step.actor in s.actors && s.actors[step.actor].pc.Deliver? && s.actors[step.actor].role.Key() == k
  }

  /** On the way to giving a task up because a processor was refused. */
  predicate GivesUpRefused(pc: Pc) {
    pc == Raised(NonRetryable, false)
    || ((pc.LedgerCheck? || pc.TerminalCheck? || pc.PostFailed?) && pc.why == RefusedOutside)
  }

  predicate AfterRefusal(pc: Pc) { pc.Deliver? && pc.at == AfterNonRetryable }

  /** Nobody speaks of a refusal other than those of the messages and tasks given. */
  ghost predicate Real(s: State, messages: iset<Message>, tasks: iset<TaskKey>) {
    && (forall a :: a in s.actors && GivesUpRefused(s.actors[a].pc) ==>
          s.actors[a].role.Handler? && s.actors[a].role.msg in messages)
    && (forall m, effective :: FailPosted(m, RefusedOutside, effective) in s.log ==> m in messages)
    && (forall a :: a in s.actors && AfterRefusal(s.actors[a].pc) ==> s.actors[a].role.Key() in tasks)
    && (forall k :: Rejected(k) in s.log ==> k in tasks || s.Task(k).status == Failure)
  }

  // ----- One step -----

  lemma DeliveryRefusals(cfg: Config, v: View, c: Choice)
    requires v.pc.Deliver? && AfterRefusal(DeliverStep(cfg, v, c).pc)
    ensures c.reply == Failed(NonRetryable)
  {}

  /** What a rejection in the history of a delivery comes from. */
  lemma DeliveryRejects(cfg: Config, v: View, c: Choice, k: TaskKey)
    requires v.pc.Deliver? && DeliverStep(cfg, v, c).log == v.log + [Rejected(k)]
    ensures k == v.pc.entry.key
    ensures c.reply == Failed(NonRetryable) || AfterRefusal(v.pc) || v.task.status == Failure
  {
    assert DeliverStep(cfg, v, c).log[|v.log|] == Rejected(k);
  }

  lemma ProcessRefusals(cfg: Config, m: Message, v: View, c: Choice)
    requires ProcessorPc(v.pc)
    ensures var w := ProcessStep(cfg, m, v, c);
      (GivesUpRefused(w.pc) ==> c.reply == Failed(NonRetryable)) && !AfterRefusal(w.pc)
  {}

  lemma FailureRefusals(cfg: Config, m: Message, v: View, c: Choice)
    requires FailurePc(v.pc)
    ensures var w := FailureStep(cfg, m, v, c);
      (GivesUpRefused(w.pc) ==> GivesUpRefused(v.pc)) && !AfterRefusal(w.pc)
  {}

  lemma LocalRefusals(cfg: Config, role: Role, v: View, c: Choice)
    requires LocalPc(role, v.pc)
    ensures var w := LocalStep(cfg, role, v, c);
      && (GivesUpRefused(w.pc) ==> role.Handler?)
      && (GivesUpRefused(w.pc) ==> GivesUpRefused(v.pc) || (ProcessorPc(v.pc) && c.reply == Failed(NonRetryable)))
      && (AfterRefusal(w.pc) ==> v.pc.Deliver? && c.reply == Failed(NonRetryable))
  {
    if v.pc.Deliver? {
      DeliverStays(cfg, v, c);
      if AfterRefusal(DeliverStep(cfg, v, c).pc) {
        DeliveryRefusals(cfg, v, c);
      }
    } else if v.pc.Ended? {
    } else if ProcessorPc(v.pc) {
      ProcessRefusals(cfg, role.msg, v, c);
    } else {
      FailureRefusals(cfg, role.msg, v, c);
    }
  }

  /** What a rejection in the history of a local step comes from. */
  lemma LocalRejects(cfg: Config, role: Role, v: View, c: Choice, k: TaskKey)
    requires LocalPc(role, v.pc) && ServerAllows(v, c) && LocalInv(role, v)
    requires LocalStep(cfg, role, v, c).log == v.log + [Rejected(k)]
    ensures v.pc.Deliver? && k == role.Key()
    ensures c.reply == Failed(NonRetryable) || AfterRefusal(v.pc) || v.task.status == Failure
  {
    var w := LocalStep(cfg, role, v, c);
    assert w.log[|v.log|] == Rejected(k);
    if v.pc.Deliver? {
      DeliveryRejects(cfg, v, c, k);
    } else if ProcessorPc(v.pc) {
      ProcessLogs(cfg, role.msg, v, c, k);
    } else if FailurePc(v.pc) {
      FailureLogs(cfg, role.msg, v, c, k);
    }
  }

  lemma ProcessLogs(cfg: Config, m: Message, v: View, c: Choice, k: TaskKey)
    requires ProcessorPc(v.pc)
    ensures ProcessStep(cfg, m, v, c).log != v.log + [Rejected(k)]
  {
    assert (v.log + [Rejected(k)])[|v.log|] == Rejected(k);
  }

  lemma FailureLogs(cfg: Config, m: Message, v: View, c: Choice, k: TaskKey)
    requires FailurePc(v.pc)
    ensures FailureStep(cfg, m, v, c).log != v.log + [Rejected(k)]
  {
    assert (v.log + [Rejected(k)])[|v.log|] == Rejected(k);
  }

  // ----- Every step -----

  lemma PutPosted(s: State, a: nat, w: View, messages: iset<Message>, tasks: iset<TaskKey>)
    requires Real(s, messages, tasks) && a in s.actors && Moves(s.actors[a].role, s.See(a), w)
    ensures forall m, effective :: FailPosted(m, RefusedOutside, effective) in w.log ==> m in messages
  {
    forall m, effective | FailPosted(m, RefusedOutside, effective) in w.log ensures m in messages {
      if FailPosted(m, RefusedOutside, effective) !in s.log {
        assert w.log[|s.log|] == FailPosted(m, RefusedOutside, effective);
        assert GivesUpRefused(s.actors[a].pc);
      }
    }
  }

  lemma PutRejected(s: State, a: nat, w: View, messages: iset<Message>, tasks: iset<TaskKey>)
    requires Real(s, messages, tasks) && a in s.actors && Moves(s.actors[a].role, s.See(a), w)
    requires forall k :: w.log == s.log + [Rejected(k)] ==>
      k in tasks || (k == s.actors[a].role.Key() && s.Task(k).status == Failure)
    ensures forall k :: Rejected(k) in w.log ==> k in tasks || s.Put(a, w).Task(k).status == Failure
  {
    forall k | Rejected(k) in w.log ensures k in tasks || s.Put(a, w).Task(k).status == Failure {
      assert s.Task(k).MayBecome(s.Put(a, w).Task(k));
      if Rejected(k) !in s.log {
        assert w.log[|s.log|] == Rejected(k);
      }
    }
  }

  lemma PutReal(s: State, a: nat, w: View, messages: iset<Message>, tasks: iset<TaskKey>)
    requires Real(s, messages, tasks) && a in s.actors && Moves(s.actors[a].role, s.See(a), w)
    requires GivesUpRefused(w.pc) ==> s.actors[a].role.Handler? && s.actors[a].role.msg in messages
    requires AfterRefusal(w.pc) ==> s.actors[a].role.Key() in tasks
    requires forall k :: w.log == s.log + [Rejected(k)] ==>
      k in tasks || (k == s.actors[a].role.Key() && s.Task(k).status == Failure)
    ensures Real(s.Put(a, w), messages, tasks)
  {
    PutPosted(s, a, w, messages, tasks);
    PutRejected(s, a, w, messages, tasks);
  }

  lemma LocalReal(cfg: Config, s: State, a: nat, c: Choice, messages: iset<Message>, tasks: iset<TaskKey>)
    requires Enabled(cfg, s, Local(a, c)) && Recorded(s) && Real(s, messages, tasks)
    requires forall m :: RefusesProcessor(s, Local(a, c), m) ==> m in messages
    requires forall k :: RefusesDelivery(s, Local(a, c), k) ==> k in tasks
    ensures Real(s.Put(a, LocalStep(cfg, s.actors[a].role, s.See(a), c)), messages, tasks)
  {
    var role := s.actors[a].role;
    var w := LocalStep(cfg, role, s.See(a), c);
    assert SlotInv(role.Key(), s.Slot(role.Key()), s.log);
    LocalStepKeeps(cfg, role, s.See(a), c);
    LocalRefusals(cfg, role, s.See(a), c);
    if role.Handler? {
      assert RefusesProcessor(s, Local(a, c), role.msg) ==> role.msg in messages;
    }
    assert RefusesDelivery(s, Local(a, c), role.Key()) ==> role.Key() in tasks;
    forall k | w.log == s.log + [Rejected(k)]
      ensures k in tasks || (k == role.Key() && s.Task(k).status == Failure)
    {
      LocalRejects(cfg, role, s.See(a), c, k);
    }
    PutReal(s, a, w, messages, tasks);
  }

  predicate Speaks(pc: Pc) { GivesUpRefused(pc) || AfterRefusal(pc) }

  /** Outside the local code nobody comes to speak of a refusal. */
  lemma NobodyRefuses(cfg: Config, s: State, step: Step, a: nat)
    requires Enabled(cfg, s, step) && Exclusive(s) && !step.Local? && a in Apply(cfg, s, step).actors
    requires Speaks(Apply(cfg, s, step).actors[a].pc)
    ensures a in s.actors && Apply(cfg, s, step).actors[a] == s.actors[a]
  {
    if Moving(step) {
      StepMoves(cfg, s, step);
      NoMoverRefuses(s, Apply(cfg, s, step), Mover(s, step), a);
    } else if step.ScanNext? {
      ReplayStartsQuietly(s, a);
    }
  }

  lemma NoMoverRefuses(s: State, s': State, b: nat, a: nat)
    requires OnlyMoves(s, s', b) && a in s'.actors && Speaks(s'.actors[a].pc)
    ensures a in s.actors && s'.actors[a] == s.actors[a]
  {}

  lemma ReplayStartsQuietly(s: State, a: nat)
    requires s.scan.Scanning? && s.scan.rest != []
    requires a in ScanNextStep(s).actors && Speaks(ScanNextStep(s).actors[a].pc)
    ensures a in s.actors && ScanNextStep(s).actors[a] == s.actors[a]
  {}

  lemma QuietReal(s: State, s': State, messages: iset<Message>, tasks: iset<TaskKey>)
    requires Real(s, messages, tasks) && Forward(s, s')
    requires forall e :: e in s'.log && (e.FailPosted? || e.Rejected?) ==> e in s.log
    requires forall a :: a in s'.actors && Speaks(s'.actors[a].pc) ==>
      a in s.actors && s'.actors[a] == s.actors[a]
    ensures Real(s', messages, tasks)
  {
    forall k | Rejected(k) in s'.log ensures k in tasks || s'.Task(k).status == Failure {
      assert s.Task(k).MayBecome(s'.Task(k));
    }
  }

  lemma StepReal(cfg: Config, s: State, step: Step, messages: iset<Message>, tasks: iset<TaskKey>)
    requires Enabled(cfg, s, step) && Exclusive(s) && Recorded(s) && Real(s, messages, tasks)
    requires forall m :: RefusesProcessor(s, step, m) ==> m in messages
    requires forall k :: RefusesDelivery(s, step, k) ==> k in tasks
    ensures Real(Apply(cfg, s, step), messages, tasks)
  {
    var s' := Apply(cfg, s, step);
    if step.Local? {
      LocalReal(cfg, s, step.actor, step.choice, messages, tasks);
    } else {
      if !step.Crash? {
        EnabledLog(cfg, s, step);
      }
      StepForward(cfg, s, step);
      forall a | a in s'.actors && Speaks(s'.actors[a].pc)
        ensures a in s.actors && s'.actors[a] == s.actors[a]
      {
        NobodyRefuses(cfg, s, step, a);
      }
      QuietReal(s, s', messages, tasks);
    }
  }

  // ----- Every run -----

  /** Some processor working on `m` was refused before state `n`. */
  ghost predicate ProcessorRefused(run: seq<State>, steps: seq<Step>, n: nat, m: Message)
    requires n <= |steps| <= |run|
  {
    exists j :: 0 <= j < n && RefusesProcessor(run[j], steps[j], m)
  }

  /** Some delivery of the task was refused before state `n`. */
  ghost predicate DeliveryRefused(run: seq<State>, steps: seq<Step>, n: nat, k: TaskKey)
    requires n <= |steps| <= |run|
  {
    exists j :: 0 <= j < n && RefusesDelivery(run[j], steps[j], k)
  }

  lemma {:induction false} RunReal(cfg: Config, run: seq<State>, steps: seq<Step>, n: nat, messages: iset<Message>,
                                   tasks: iset<TaskKey>)
    requires IsRun(cfg, run, steps) && n < |run|
    requires forall j, m :: 0 <= j < n && RefusesProcessor(run[j], steps[j], m) ==> m in messages
    requires forall j, k :: 0 <= j < n && RefusesDelivery(run[j], steps[j], k) ==> k in tasks
    ensures Real(run[n], messages, tasks)
  {
    if n == 0 {
      forall e | e in run[0].log ensures e.Spooled? {}
    } else {
      RunReal(cfg, run, steps, n - 1, messages, tasks);
      RunInv(cfg, run, steps, n - 1);
      StepReal(cfg, run[n - 1], steps[n - 1], messages, tasks);
    }
  }

  lemma RefusedSets(cfg: Config, run: seq<State>, steps: seq<Step>, n: nat)
    requires IsRun(cfg, run, steps) && n < |run|
    ensures Real(run[n], iset m | ProcessorRefused(run, steps, n, m), iset k | DeliveryRefused(run, steps, n, k))
  {
    RunReal(cfg, run, steps, n, iset m | ProcessorRefused(run, steps, n, m),
            iset k | DeliveryRefused(run, steps, n, k));
  }

  /** A task is given up as refused outside a delivery only after a request of a processor working on that message
      was answered with an error that is not for trying again. */
  lemma RefusalsAreReal(cfg: Config, run: seq<State>, steps: seq<Step>, n: nat, m: Message, effective: bool)
    requires IsRun(cfg, run, steps) && n < |run| && FailPosted(m, RefusedOutside, effective) in run[n].log
    ensures ProcessorRefused(run, steps, n, m)
  {
    RefusedSets(cfg, run, steps, n);
  }

  /** A delivery is rejected only after a request of a delivery of that task was answered so, or if the task has
      failed. */
  lemma RejectionsAreReal(cfg: Config, run: seq<State>, steps: seq<Step>, n: nat, k: TaskKey)
    requires IsRun(cfg, run, steps) && n < |run| && Rejected(k) in run[n].log
    ensures DeliveryRefused(run, steps, n, k) || run[n].Task(k).status == Failure
  {
    RefusedSets(cfg, run, steps, n);
  }

  /** What is spooled is lost by nothing but a refusal: as long as no request of a delivery of the task was answered
      with an error that is not for trying again, the spool holds a result of the task or the task is terminal,
      whatever errors, lost responses, failed writes and crashes there were. */
  lemma LostOnlyByRefusal(cfg: Config, run: seq<State>, steps: seq<Step>, n: nat, k: TaskKey, p: Payload)
    requires IsRun(cfg, run, steps) && n < |run| && Spooled(k, p) in run[n].log
    requires !DeliveryRefused(run, steps, n, k)
    ensures k in run[n].spool || run[n].Task(k).Terminal()
  {
    var i :| 0 <= i < |run[n].log| && run[n].log[i] == Spooled(k, p);
    ResultNeverLost(cfg, run, steps, n, k, p, i);
    if Rejected(k) in run[n].log {
      RejectionsAreReal(cfg, run, steps, n, k);
    }
  }

  /** Nor does the LLM run again, or a second result get spooled, before a refusal or the failure of the task. */
  lemma RerunOnlyAfterRefusal(cfg: Config, run: seq<State>, steps: seq<Step>, n: nat, k: TaskKey, i: nat, j: nat)
    requires IsRun(cfg, run, steps) && n < |run| && i < j < |run[n].log|
    requires run[n].log[i].Spooled? && run[n].log[i].key == k
    requires (run[n].log[j].Spooled? || run[n].log[j].LlmCalled?) && run[n].log[j].key == k
    ensures DeliveryRefused(run, steps, n, k) || run[n].Task(k).status == Failure
  {
    RunInv(cfg, run, steps, n);
    OwedOnce(run[n].log, k, i, j);
    RejectionsAreReal(cfg, run, steps, n, k);
  }
}

/** Progress: no actor is ever stuck, its local code always ends, and what it ends in when the environment is
    healthy, when the server is out, and when the task fails for good. */
module Progress {
  import opened Registry
  import opened Protocol
  import opened LocalInvariant
  import opened Exclusion
  import opened Settlement
  import opened Retries
  import opened Worker

  // ----- Nobody is stuck -----

  predicate StepOf(step: Step, a: nat) {
    match step
    case Register(b) => b == a
    case Local(b, _) => b == a
    case RepublishCopy(b, _, _) => b == a
    case SettleCopy(b) => b == a
    case Release(b) => b == a
    case _ => false
  }

  /** In every reachable state every actor can take a step of its own, whatever the others do: in particular a
      handler about to settle still finds its copy with the broker. */
  lemma NeverStuck(cfg: Config, run: seq<State>, steps: seq<Step>, n: nat, a: nat, c: Choice) returns (step: Step)
    requires IsRun(cfg, run, steps) && n < |run| && a in run[n].actors && c.reply == Failed(Retryable)
    ensures Enabled(cfg, run[n], step) && StepOf(step, a)
  {
    var s := run[n];
    var x := s.actors[a];
    RunInv(cfg, run, steps, n);
    assert Shaped(x);
    if x.pc.Received? {
      step := Register(a);
    } else if LocalPc(x.role, x.pc) {
      step := Local(a, c);
    } else if x.pc.Republish? {
      step := RepublishCopy(a, false, false);
    } else if x.pc.Settle? {
      assert Owes(s, a) && Holds(s, a);
      step := SettleCopy(a);
    } else {
      step := Release(a);
    }
  }

  // ----- The local code ends -----

  function Place(at: DeliverAt): nat {
    match at
    case EnsureRequestId => 9
    case AskTerminal => 8
    case EnsureStored => 7
    case StoreForEntry => 6
    case ConfirmStoredForEntry => 5
    case Complete => 4
    case AfterRetryable => 3
    case AfterNonRetryable => 3
    case AttemptFailed => 2
    case DropDelivered => 1
    case DropRejected => 1
  }

  function AttemptsLeft(cfg: Config, n: nat): nat {
    if n < cfg.MaxAttempts() then cfg.MaxAttempts() - n else 0
  }

  /** How many steps of its own an actor can still take before it settles or is done, if the LLM phase makes at
      most `patience` calls. */
  function Rank(cfg: Config, patience: nat, pc: Pc): nat {
    var delivery := 20 + 10 * cfg.MaxAttempts();
    var storing := delivery + 2 * cfg.MaxAttempts();
    match pc
    case PostRetry => 1
    case LedgerWrite => 1
    case DlqPublish => 2
    case DlqCheck => 3
    case PostFailed(_) => 4
    case TerminalCheck(_) => 5
    case LedgerCheck(_) => 6
    case Raised(_, _) => 7
    case Ended(_) => 8
    case Deliver(at, _, n) => 9 + 10 * AttemptsLeft(cfg, n) + Place(at)
    case EnqueueStored(_) => delivery
    case ConfirmStored(_, n) => delivery + 1 + 2 * AttemptsLeft(cfg, n)
    case StoreResult(_, n) => delivery + 2 + 2 * AttemptsLeft(cfg, n)
    case EnqueueResult(_) => storing + 3
    case Llm(calls) => storing + 4 + if calls < patience then patience - calls else 0
    case Prepare => storing + 5 + patience
    case AskStored => storing + 6 + patience
    case AskSpool => storing + 7 + patience
    case AskStatus => storing + 8 + patience
    case Start => storing + 9 + patience
    case _ => 0
  }

  /** The LLM phase is over once it has made `patience` calls. */
  predicate Patient(pc: Pc, c: Choice, patience: nat) {
    patience > 0 && (pc.Llm? && pc.calls >= patience ==> c.enough)
  }

  /** A failed attempt is followed by another one only while attempts are left. */
  lemma AttemptRank(cfg: Config, patience: nat, v: View, c: Choice)
    requires v.pc.Deliver? && v.pc.at == AttemptFailed
    ensures Rank(cfg, patience, DeliverStep(cfg, v, c).pc) < Rank(cfg, patience, v.pc)
  {
    var n := v.pc.attempt;
    assert n < cfg.MaxAttempts() ==> AttemptsLeft(cfg, n) == AttemptsLeft(cfg, n + 1) + 1;
  }

  /** Within one attempt the place falls, or the delivery ends. */
  lemma PlaceFalls(cfg: Config, v: View, c: Choice)
    requires v.pc.Deliver? && v.pc.at != AttemptFailed
    ensures var pc := DeliverStep(cfg, v, c).pc;
      pc.Ended? || (pc.Deliver? && pc.attempt == v.pc.attempt && Place(pc.at) < Place(v.pc.at))
  {}

  lemma DeliverRank(cfg: Config, patience: nat, v: View, c: Choice)
    requires v.pc.Deliver?
    ensures Rank(cfg, patience, DeliverStep(cfg, v, c).pc) < Rank(cfg, patience, v.pc)
  {
    if v.pc.at == AttemptFailed {
      AttemptRank(cfg, patience, v, c);
    } else {
      PlaceFalls(cfg, v, c);
    }
  }

  lemma StoringRank(cfg: Config, patience: nat, m: Message, v: View, c: Choice)
    requires v.pc.StoreResult? || v.pc.ConfirmStored?
    ensures Rank(cfg, patience, ProcessStep(cfg, m, v, c).pc) < Rank(cfg, patience, v.pc)
  {}

  lemma ProcessRank(cfg: Config, patience: nat, m: Message, v: View, c: Choice)
    requires ProcessorPc(v.pc) && Patient(v.pc, c, patience)
    ensures Rank(cfg, patience, ProcessStep(cfg, m, v, c).pc) < Rank(cfg, patience, v.pc)
  {
    if v.pc.StoreResult? || v.pc.ConfirmStored? {
      StoringRank(cfg, patience, m, v, c);
    }
  }

  lemma FailureRank(cfg: Config, patience: nat, m: Message, v: View, c: Choice)
    requires FailurePc(v.pc)
    ensures Rank(cfg, patience, FailureStep(cfg, m, v, c).pc) < Rank(cfg, patience, v.pc)
  {}

  lemma LocalRank(cfg: Config, patience: nat, role: Role, v: View, c: Choice)
    requires LocalPc(role, v.pc) && Patient(v.pc, c, patience)
    ensures Rank(cfg, patience, LocalStep(cfg, role, v, c).pc) < Rank(cfg, patience, v.pc)
  {
    if v.pc.Deliver? {
      DeliverRank(cfg, patience, v, c);
    } else if ProcessorPc(v.pc) {
      ProcessRank(cfg, patience, role.msg, v, c);
    } else if FailurePc(v.pc) {
      FailureRank(cfg, patience, role.msg, v, c);
    }
  }

  /** An environment answers on what the actor sees. */
  type Environment = View -> Choice

  /** Up to `n` local steps in a row. */
  function Walk(cfg: Config, role: Role, v: View, env: Environment, n: nat): View
    decreases n
  {
    if n == 0 || !LocalPc(role, v.pc) then v else Walk(cfg, role, LocalStep(cfg, role, v, env(v)), env, n - 1)
  }

  lemma DeliverWalk(cfg: Config, role: Role, v: View, env: Environment, n: nat)
    requires v.pc.Deliver? && n > 0
    ensures Walk(cfg, role, v, env, n) == Walk(cfg, role, DeliverStep(cfg, v, env(v)), env, n - 1)
  {}

  lemma EndedWalk(cfg: Config, role: Role, v: View, env: Environment, n: nat)
    requires v.pc.Ended? && !v.pc.outcome.Raising? && n > 0
    ensures Walk(cfg, role, v, env, n) == v.Goto(AfterDelivery(role, v.pc.outcome))
  {
    var w := v.Goto(AfterDelivery(role, v.pc.outcome));
    assert Walk(cfg, role, v, env, n) == Walk(cfg, role, w, env, n - 1);
  }

  /** Where a handler, or a replay, leaves its local code. */
  predicate Done(role: Role, pc: Pc) {
    if role.Handler? then pc.Settle? || pc.Republish? else pc.Releasing?
  }

  /** Whatever the environment answers, a handler reaches its settlement or its republish, and a replay its
      release, within a number of steps known in advance. */
  lemma {:induction false} LocalCodeEnds(cfg: Config, patience: nat, role: Role, v: View, env: Environment, n: nat)
    requires LocalPc(role, v.pc) || Done(role, v.pc)
    requires (forall w: View :: Patient(w.pc, env(w), patience)) && n >= Rank(cfg, patience, v.pc)
    ensures Done(role, Walk(cfg, role, v, env, n).pc)
    decreases n
  {
    if LocalPc(role, v.pc) {
      var w := LocalStep(cfg, role, v, env(v));
      LocalRank(cfg, patience, role, v, env(v));
      StepStays(cfg, role, v, env(v));
      LocalCodeEnds(cfg, patience, role, w, env, n - 1);
    }
  }

  lemma StepStays(cfg: Config, role: Role, v: View, c: Choice)
    requires LocalPc(role, v.pc)
    ensures var pc := LocalStep(cfg, role, v, c).pc; LocalPc(role, pc) || Done(role, pc)
  {
    if v.pc.Deliver? {
      DeliverStays(cfg, v, c);
    }
  }

  // ----- An environment in order -----

  /** From below the rank of `pc` on, and local code only falls in rank, every request and every write succeeds, and
      the LLM answers `answer` in one call. */
  ghost predicate InOrderAfter(cfg: Config, env: Environment, answer: Payload, pc: Pc) {
    forall v: View {:trigger InOrderAt(env, answer, v)} :: Rank(cfg, 1, v.pc) < Rank(cfg, 1, pc) ==>
      InOrderAt(env, answer, v)
  }

  ghost predicate InOrderAt(env: Environment, answer: Payload, v: View) {
    env(v).reply.Fine? && env(v).enough && env(v).payload == answer
  }

  /** Every request and every write succeeds, at `v` and after it. */
  ghost predicate InOrderFrom(cfg: Config, env: Environment, answer: Payload, v: View) {
    InOrderAt(env, answer, v) && InOrderAfter(cfg, env, answer, v.pc)
  }

  lemma Onward(cfg: Config, env: Environment, answer: Payload, pc: Pc, w: View)
    requires InOrderAfter(cfg, env, answer, pc) && Rank(cfg, 1, w.pc) < Rank(cfg, 1, pc)
    ensures InOrderFrom(cfg, env, answer, w)
  {}

  /** Every request and every write succeeds, and the LLM answers `answer` in one call. Nothing is said of the
      check on the waiting time, which comes first and is neither. */
  ghost predicate Healthy(env: Environment, answer: Payload) {
    forall v: View :: v.pc.Start? || InOrderAt(env, answer, v)
  }

  lemma HealthyIsInOrder(cfg: Config, env: Environment, answer: Payload, pc: Pc)
    requires Healthy(env, answer)
    ensures InOrderAfter(cfg, env, answer, pc)
  {
    forall v: View | Rank(cfg, 1, v.pc) < Rank(cfg, 1, pc) ensures !v.pc.Start? {
      StartIsHighest(cfg, pc);
    }
  }

  lemma StartIsHighest(cfg: Config, pc: Pc)
    ensures Rank(cfg, 1, pc) <= Rank(cfg, 1, Start)
  {
    match pc
    case Deliver(at, _, n) => AttemptsBound(cfg, n);
    case StoreResult(_, n) => AttemptsBound(cfg, n);
    case ConfirmStored(_, n) => AttemptsBound(cfg, n);
    case _ =>
  }

  lemma AttemptsBound(cfg: Config, n: nat)
    ensures AttemptsLeft(cfg, n) <= cfg.MaxAttempts()
  {}

  /** Where a delivery leaves its actor when it ends without an error. */
  function Finished(role: Role): Pc { if role.Replay? then Releasing(false) else Settle(Ack(Processed)) }

  /** A delivery with nothing in its way: the task is open, or it has succeeded without the delivery asking again. */
  predicate OnTheWay(v: View) {
    && v.pc.Deliver?
    && (v.pc.at == EnsureRequestId || v.pc.at == AskTerminal || v.pc.at == EnsureStored || v.pc.at == StoreForEntry
        || v.pc.at == Complete || v.pc.at == DropDelivered)
    && (v.task.status == Success || (v.task.status == Open && v.pc.at != DropDelivered))
    && (v.task.status == Success && v.pc.entry.taskType.Some? ==> v.pc.at != EnsureRequestId && v.pc.at != AskTerminal)
    && (v.pc.at == Complete || v.pc.at == DropDelivered ==> v.task.stored)
  }

  /** What a delivery of `e` adds to the history from `at` on. */
  function Told(at: DeliverAt, e: Entry): seq<Event> {
    var completed := [CompletionSent(e.key, true, e.taskType.Some?)];
    match at
    case DropDelivered => []
    case EnsureStored => completed
    case StoreForEntry => completed
    case Complete => completed
    case _ => (if e.taskType.Some? then [FoundOpen(e.key)] else []) + completed
  }

  lemma HealthyDeliverStep(cfg: Config, v: View, c: Choice)
    requires OnTheWay(v) && v.pc.at != DropDelivered && c.reply.Fine?
    ensures var w := DeliverStep(cfg, v, c);
      OnTheWay(w) && w.inLedger == v.inLedger && w.log + Told(w.pc.at, w.pc.entry) == v.log + Told(v.pc.at, v.pc.entry)
  {}

  /** The delete once the task has succeeded. */
  lemma DropWalk(cfg: Config, role: Role, v: View, env: Environment, n: nat)
    requires v.pc.Deliver? && v.pc.at == DropDelivered && env(v).reply.Fine? && n >= 2
    ensures Walk(cfg, role, v, env, n) == View(Finished(role), None, v.inLedger, v.task, v.log)
  {
    DeliverWalk(cfg, role, v, env, n);
    EndedWalk(cfg, role, DeliverStep(cfg, v, env(v)), env, n - 1);
  }

  /** A delivery then completes the task once, with its result stored, and clears the spool. */
  lemma {:induction false} HealthyDelivery(cfg: Config, role: Role, v: View, env: Environment, answer: Payload, n: nat)
    requires InOrderFrom(cfg, env, answer, v) && OnTheWay(v) && n >= Rank(cfg, 1, v.pc)
    ensures Walk(cfg, role, v, env, n) ==
      View(Finished(role), None, v.inLedger, ServerTask(Success, true), v.log + Told(v.pc.at, v.pc.entry))
    decreases n
  {
    if v.pc.at == DropDelivered {
      DropWalk(cfg, role, v, env, n);
    } else {
      var w := DeliverStep(cfg, v, env(v));
      DeliverRank(cfg, 1, v, env(v));
      DeliverWalk(cfg, role, v, env, n);
      HealthyDeliverStep(cfg, v, env(v));
      Onward(cfg, env, answer, v.pc, w);
      HealthyDelivery(cfg, role, w, env, answer, n - 1);
    }
  }

  /** What a handler adds to the history on the way from `pc` to its settlement. */
  function Story(m: Message, answer: Payload, pc: Pc, slot: Option<Entry>, task: ServerTask): seq<Event> {
    var k := TaskKey(m.taskId, m.taskType);
    var completed := [FoundOpen(k), CompletionSent(k, true, true)];
    match pc
    case StoreResult(e, _) => Told(EnsureRequestId, e)
    case EnqueueStored(p) => [Spooled(k, p)] + completed
    case EnqueueResult(p) => [Spooled(k, p)] + completed
    case Llm(calls) => (if calls == 0 then [LlmCalled(k)] else []) + [Spooled(k, answer)] + completed
    case Prepare => [LlmCalled(k), Spooled(k, answer)] + completed
    case AskStored => (if task.stored then [] else [LlmCalled(k)]) + [Spooled(k, answer)] + completed
    case _ =>
      if slot.Some? then Told(EnsureRequestId, slot.value)
      else (if task.stored then [] else [LlmCalled(k)]) + [Spooled(k, answer)] + completed
  }

  /** One step of the processor past its first check: the task stays open, and what was told and what is still to
      tell add up. */
  lemma HealthyStep(cfg: Config, m: Message, v: View, c: Choice)
    requires c.reply.Fine? && c.enough && ProcessorPc(v.pc) && !v.pc.Start? && v.task.status == Open
    requires !v.pc.ConfirmStored?
    ensures var w := ProcessStep(cfg, m, v, c); var told := v.log + Story(m, c.payload, v.pc, v.slot, v.task);
      && w.task.status == Open && w.inLedger == v.inLedger
      && (if w.pc.Deliver?
          then OnTheWay(w) && w.pc.at == EnsureRequestId && w.log + Told(EnsureRequestId, w.pc.entry) == told
          else ProcessorPc(w.pc) && !w.pc.ConfirmStored? && !w.pc.Start?
               && w.log + Story(m, c.payload, w.pc, w.slot, w.task) == told)
  {}

  lemma ProcessWalk(cfg: Config, role: Role, v: View, env: Environment, n: nat)
    requires role.Handler? && ProcessorPc(v.pc) && n > 0
    ensures Walk(cfg, role, v, env, n) == Walk(cfg, role, ProcessStep(cfg, role.msg, v, env(v)), env, n - 1)
  {}

  /** Past its first check a handler finishes an open task: it reuses a spooled or a stored result if there is one,
      otherwise it calls the LLM once; the result is spooled before the completion is sent, and the spool ends
      clear. */
  lemma {:induction false} HealthyProcessing(cfg: Config, role: Role, v: View, env: Environment, answer: Payload,
                                             n: nat)
    requires InOrderFrom(cfg, env, answer, v) && role.Handler? && ProcessorPc(v.pc) && !v.pc.Start?
    requires !v.pc.ConfirmStored? && v.task.status == Open && n >= Rank(cfg, 1, v.pc)
    ensures Walk(cfg, role, v, env, n) ==
      View(Settle(Ack(Processed)), None, v.inLedger, ServerTask(Success, true),
           v.log + Story(role.msg, answer, v.pc, v.slot, v.task))
    decreases n
  {
    var w := ProcessStep(cfg, role.msg, v, env(v));
    assert Patient(v.pc, env(v), 1);
    ProcessRank(cfg, 1, role.msg, v, env(v));
    ProcessWalk(cfg, role, v, env, n);
    HealthyStep(cfg, role.msg, v, env(v));
    Onward(cfg, env, answer, v.pc, w);
    if w.pc.Deliver? {
      HealthyDelivery(cfg, role, w, env, answer, n - 1);
    } else {
      HealthyProcessing(cfg, role, w, env, answer, n - 1);
    }
  }

  // ----- A server that is out -----

  /** The server answers nothing, while the disk works. */
  ghost predicate ServerOut(env: Environment) {
    forall v: View ::
      if v.pc.Deliver? && (v.pc.at == EnsureRequestId || v.pc.at == AttemptFailed) then env(v).reply.Fine?
      else env(v).reply == Failed(Retryable) && !env(v).effect
  }

  predicate Unserved(v: View) {
    && v.pc.Deliver?
    && (v.pc.at == EnsureRequestId || (v.pc.entry.hasRequestId
          && (v.pc.at == AskTerminal || v.pc.at == EnsureStored || v.pc.at == AttemptFailed)))
  }

  /** What the outage leaves behind in the end. */
  function PutOff(cfg: Config, role: Role, v: View): View
    requires v.pc.Deliver?
  {
    var attempts := if cfg.apiAttempts < 1 then 1 else cfg.apiAttempts;
    v.(pc := Finished(role), slot := Some(v.pc.entry.(hasRequestId := true, attemptCount := attempts)))
  }

  lemma OutageStep(cfg: Config, role: Role, v: View, c: Choice)
    requires Unserved(v) && 1 <= v.pc.attempt <= cfg.MaxAttempts()
    requires if v.pc.at == EnsureRequestId || v.pc.at == AttemptFailed then c.reply.Fine?
             else c.reply == Failed(Retryable) && !c.effect
    ensures var w := DeliverStep(cfg, v, c);
      if w.pc.Ended? then w.pc.outcome == Deferred && w.(pc := Finished(role)) == PutOff(cfg, role, v)
      else Unserved(w) && 1 <= w.pc.attempt <= cfg.MaxAttempts() && PutOff(cfg, role, w) == PutOff(cfg, role, v)
  {}

  lemma OutageEnds(cfg: Config, role: Role, v: View, env: Environment, n: nat)
    requires ServerOut(env) && Unserved(v) && 1 <= v.pc.attempt <= cfg.MaxAttempts()
    requires DeliverStep(cfg, v, env(v)).pc.Ended? && n >= 2
    ensures Walk(cfg, role, v, env, n) == PutOff(cfg, role, v)
  {
    OutageStep(cfg, role, v, env(v));
    DeliverWalk(cfg, role, v, env, n);
    EndedWalk(cfg, role, DeliverStep(cfg, v, env(v)), env, n - 1);
  }

  lemma OutageGoesOn(cfg: Config, role: Role, v: View, env: Environment, n: nat) returns (w: View)
    requires ServerOut(env) && Unserved(v) && 1 <= v.pc.attempt <= cfg.MaxAttempts()
    requires !DeliverStep(cfg, v, env(v)).pc.Ended? && n >= Rank(cfg, 1, v.pc)
    ensures n > 0 && n - 1 >= Rank(cfg, 1, w.pc) && Walk(cfg, role, v, env, n) == Walk(cfg, role, w, env, n - 1)
    ensures Unserved(w) && 1 <= w.pc.attempt <= cfg.MaxAttempts() && PutOff(cfg, role, w) == PutOff(cfg, role, v)
  {
    w := DeliverStep(cfg, v, env(v));
    OutageStep(cfg, role, v, env(v));
    DeliverRank(cfg, 1, v, env(v));
    DeliverWalk(cfg, role, v, env, n);
  }

  lemma OutageMoves(cfg: Config, role: Role, v: View, env: Environment, n: nat) returns (w: View, ended: bool)
    requires ServerOut(env) && Unserved(v) && n >= Rank(cfg, 1, v.pc) && 1 <= v.pc.attempt <= cfg.MaxAttempts()
    ensures ended ==> Walk(cfg, role, v, env, n) == PutOff(cfg, role, v)
    ensures !ended ==>
      && n > 0 && n - 1 >= Rank(cfg, 1, w.pc) && Walk(cfg, role, v, env, n) == Walk(cfg, role, w, env, n - 1)
      && Unserved(w) && 1 <= w.pc.attempt <= cfg.MaxAttempts() && PutOff(cfg, role, w) == PutOff(cfg, role, v)
  {
    w, ended := v, DeliverStep(cfg, v, env(v)).pc.Ended?;
    if ended {
      OutageEnds(cfg, role, v, env, n);
    } else {
      w := OutageGoesOn(cfg, role, v, env, n);
    }
  }

  /** A delivery then uses up its attempts and gives up for now: the task is as before, and the entry waits in
      the spool, with its request id, for the next scan. */
  lemma {:induction false} OutageDefers(cfg: Config, role: Role, v: View, env: Environment, n: nat)
    requires ServerOut(env) && Unserved(v) && n >= Rank(cfg, 1, v.pc) && 1 <= v.pc.attempt <= cfg.MaxAttempts()
    ensures Walk(cfg, role, v, env, n) == PutOff(cfg, role, v)
    decreases n
  {
    var w, ended := OutageMoves(cfg, role, v, env, n);
    if !ended {
      OutageDefers(cfg, role, w, env, n - 1);
    }
  }

  // ----- A task that fails -----

  function CauseOf(f: Fault, delivering: bool): Cause {
    if f != NonRetryable then OutOfRetries else if delivering then RefusedDelivery else RefusedOutside
  }

  lemma FailureWalk(cfg: Config, role: Role, v: View, env: Environment, n: nat)
    requires role.Handler? && FailurePc(v.pc) && n > 0
    ensures Walk(cfg, role, v, env, n) == Walk(cfg, role, FailureStep(cfg, role.msg, v, env(v)), env, n - 1)
  {}

  /** The view once the failure of a task has been posted, with whatever success. */
  function Posted(m: Message, v: View, why: Cause, c: Choice): View {
    var effective := c.reply.Fine? || c.effect;
    var status := if effective && v.task.status == Open then Failure else v.task.status;
    View(DlqCheck, v.slot, v.inLedger, ServerTask(status, v.task.stored), v.log + [FailPosted(m, why, effective)])
  }

  /** The view once the ledger has been written, with whatever success. */
  function Noted(m: Message, v: View, c: Choice): View {
    (if c.reply.Fine? then v else v.Logged(LedgerWriteFailed(m.Ref())))
    .(inLedger := v.inLedger || c.reply.Fine? || c.effect, pc := Settle(Ack(DlqDone)))
  }

  /** Where a publish to the DLQ leads. */
  function Published(m: Message, v: View, env: Environment): View {
    if env(v).reply.Fine? then
      var written := v.Logged(DlqConfirmed(m.Ref())).Goto(LedgerWrite);
      Noted(m, written, env(written))
    else v.Logged(DlqUnconfirmed(m.Ref())).Goto(Settle(Ack(DlqFailed)))
  }

  lemma RecordWalk(cfg: Config, role: Role, v: View, env: Environment, n: nat)
    requires role.Handler? && v.pc.LedgerWrite? && n >= 1
    ensures Walk(cfg, role, v, env, n) == Noted(role.msg, v, env(v))
  {
    FailureWalk(cfg, role, v, env, n);
  }

  lemma Unpublished(cfg: Config, role: Role, v: View, env: Environment, n: nat)
    requires role.Handler? && v.pc.DlqPublish? && env(v).reply.Failed? && n >= 1
    ensures Walk(cfg, role, v, env, n) == v.Logged(DlqUnconfirmed(role.msg.Ref())).Goto(Settle(Ack(DlqFailed)))
  {
    FailureWalk(cfg, role, v, env, n);
  }

  lemma PublishWalk(cfg: Config, role: Role, v: View, env: Environment, n: nat)
    requires role.Handler? && v.pc.DlqPublish? && n >= 2
    ensures Walk(cfg, role, v, env, n) == Published(role.msg, v, env)
  {
    if env(v).reply.Fine? {
      FailureWalk(cfg, role, v, env, n);
      RecordWalk(cfg, role, v.Logged(DlqConfirmed(role.msg.Ref())).Goto(LedgerWrite), env, n - 1);
    } else {
      Unpublished(cfg, role, v, env, n);
    }
  }

  lemma DlqWalk(cfg: Config, role: Role, v: View, env: Environment, n: nat)
    requires role.Handler? && v.pc.DlqCheck? && !v.inLedger && n >= 3
    ensures Walk(cfg, role, v, env, n) == Published(role.msg, v.Goto(DlqPublish), env)
  {
    FailureWalk(cfg, role, v, env, n);
    PublishWalk(cfg, role, v.Goto(DlqPublish), env, n - 1);
  }

  /** From the failure post on. */
  lemma PostWalk(cfg: Config, role: Role, v: View, why: Cause, env: Environment, n: nat)
    requires role.Handler? && v.pc == PostFailed(why) && !v.inLedger && n >= 4
    ensures Walk(cfg, role, v, env, n) ==
      Published(role.msg, Posted(role.msg, v, why, env(v)).Goto(DlqPublish), env)
  {
    FailureWalk(cfg, role, v, env, n);
    DlqWalk(cfg, role, Posted(role.msg, v, why, env(v)), env, n - 1);
  }

  lemma CheckWalk(cfg: Config, role: Role, v: View, why: Cause, env: Environment, n: nat)
    requires role.Handler? && v.pc == TerminalCheck(why) && n >= 1
    requires v.task.status == Open || env(v).reply.Failed?
    ensures Walk(cfg, role, v, env, n) == Walk(cfg, role, v.Goto(PostFailed(why)), env, n - 1)
  {
    FailureWalk(cfg, role, v, env, n);
  }

  lemma LedgerWalk(cfg: Config, role: Role, v: View, why: Cause, env: Environment, n: nat)
    requires role.Handler? && v.pc == LedgerCheck(why) && !v.inLedger && n >= 1
    ensures Walk(cfg, role, v, env, n) == Walk(cfg, role, v.Goto(TerminalCheck(why)), env, n - 1)
  {
    FailureWalk(cfg, role, v, env, n);
  }

  /** An open task, or one whose status cannot be read, is failed on the server. */
  lemma OpenWalk(cfg: Config, role: Role, v: View, why: Cause, env: Environment, n: nat)
    requires role.Handler? && v.pc == LedgerCheck(why) && !v.inLedger && n >= 6
    requires v.task.status == Open || env(v.Goto(TerminalCheck(why))).reply.Failed?
    ensures var u := v.Goto(PostFailed(why));
      Walk(cfg, role, v, env, n) == Published(role.msg, Posted(role.msg, u, why, env(u)).Goto(DlqPublish), env)
  {
    LedgerWalk(cfg, role, v, why, env, n);
    CheckWalk(cfg, role, v.Goto(TerminalCheck(why)), why, env, n - 1);
    PostWalk(cfg, role, v.Goto(PostFailed(why)), why, env, n - 2);
  }

  /** From the first ledger check on, for an open task of a message not in the ledger. Whatever the environment
      answers, the message is acknowledged, and the task is then terminal exactly when the failure post was
      accepted or took effect all the same; only the publish decides which reason the acknowledgement names. */
  lemma FailedTaskIsTerminalExactly(cfg: Config, role: Role, v: View, why: Cause, env: Environment, n: nat)
    requires role.Handler? && v.pc == LedgerCheck(why) && !v.inLedger && v.task.status == Open
    requires n >= Rank(cfg, 1, v.pc)
    ensures var w := Walk(cfg, role, v, env, n); var c := env(v.Goto(PostFailed(why)));
      var published := env(Posted(role.msg, v, why, c).Goto(DlqPublish)).reply.Fine?;
      && w.pc == Settle(Ack(if published then DlqDone else DlqFailed))
      && (w.task.Terminal() <==> c.reply.Fine? || c.effect)
      && w.slot == v.slot
  {
    OpenWalk(cfg, role, v, why, env, n);
  }

  /** The failure path of a task that is decided, or of a message that is in the ledger. */
  lemma DecidedWalk(cfg: Config, role: Role, v: View, why: Cause, env: Environment, n: nat)
    requires role.Handler? && v.pc == LedgerCheck(why) && n >= 2
    requires v.inLedger || (v.task.Terminal() && env(v.Goto(TerminalCheck(why))).reply.Fine?)
    ensures Walk(cfg, role, v, env, n) == v.Goto(Settle(Ack(if v.inLedger then LedgerHit else AlreadyTerminal)))
  {
    FailureWalk(cfg, role, v, env, n);
    if !v.inLedger {
      FailureWalk(cfg, role, v.Goto(TerminalCheck(why)), env, n - 1);
    }
  }

  lemma RetryWalk(cfg: Config, role: Role, v: View, env: Environment, n: nat)
    requires role.Handler? && v.pc.PostRetry? && n >= 1
    ensures Walk(cfg, role, v, env, n) == v.Goto(Republish)
  {
    FailureWalk(cfg, role, v, env, n);
  }

  /** A task given up for good, with everything in order: a message already dead-lettered, or whose task is decided,
      is acknowledged as it is; any other task is failed on the server, and its message dead-lettered once and put on
      record. */
  function Buried(m: Message, v: View, why: Cause): View {
    if v.inLedger then v.Goto(Settle(Ack(LedgerHit)))
    else if v.task.status != Open then v.Goto(Settle(Ack(AlreadyTerminal)))
    else View(Settle(Ack(DlqDone)), v.slot, true, ServerTask(Failure, v.task.stored),
              v.log + [FailPosted(m, why, true), DlqConfirmed(MessageRef(m.taskId, m.messageId))])
  }

  lemma BurialWalk(cfg: Config, role: Role, v: View, why: Cause, env: Environment, answer: Payload, n: nat)
    requires InOrderFrom(cfg, env, answer, v) && role.Handler? && v.pc == LedgerCheck(why) && n >= 6
    ensures Walk(cfg, role, v, env, n) == Buried(role.msg, v, why)
  {
    if v.inLedger || v.task.Terminal() {
      Onward(cfg, env, answer, v.pc, v.Goto(TerminalCheck(why)));
      DecidedWalk(cfg, role, v, why, env, n);
    } else {
      var posting := v.Goto(PostFailed(why));
      Onward(cfg, env, answer, v.pc, posting);
      OpenWalk(cfg, role, v, why, env, n);
      var publishing := Posted(role.msg, posting, why, env(posting)).Goto(DlqPublish);
      Onward(cfg, env, answer, v.pc, publishing);
      Onward(cfg, env, answer, v.pc, publishing.Logged(DlqConfirmed(role.msg.Ref())).Goto(LedgerWrite));
    }
  }

  lemma HopelessFailure(cfg: Config, role: Role, v: View, env: Environment, answer: Payload, n: nat)
    requires InOrderAfter(cfg, env, answer, v.pc) && role.Handler? && v.pc.Raised? && n >= 7
    requires v.pc.fault == NonRetryable || !RetryLeft(cfg, role.msg)
    ensures Walk(cfg, role, v, env, n) == Buried(role.msg, v, CauseOf(v.pc.fault, v.pc.delivering))
  {
    var w := v.Goto(LedgerCheck(CauseOf(v.pc.fault, v.pc.delivering)));
    FailureWalk(cfg, role, v, env, n);
    Onward(cfg, env, answer, v.pc, w);
    BurialWalk(cfg, role, w, CauseOf(v.pc.fault, v.pc.delivering), env, answer, n - 1);
  }

  lemma RepublishedFailure(cfg: Config, role: Role, v: View, env: Environment, n: nat)
    requires role.Handler? && v.pc.Raised? && n >= 2 && v.pc.fault != NonRetryable && RetryLeft(cfg, role.msg)
    ensures Walk(cfg, role, v, env, n) == v.Goto(Republish)
  {
    FailureWalk(cfg, role, v, env, n);
    RetryWalk(cfg, role, v.Goto(PostRetry), env, n - 1);
  }

  /** Where the failure path leaves a handler: a failure that is no refusal goes to the republish while the message
      has a retry left; any other gives the task up. */
  lemma HealthyFailure(cfg: Config, role: Role, v: View, env: Environment, answer: Payload, n: nat)
    requires InOrderAfter(cfg, env, answer, v.pc) && role.Handler? && v.pc.Raised? && n >= Rank(cfg, 1, v.pc)
    ensures Walk(cfg, role, v, env, n) ==
      if v.pc.fault != NonRetryable && RetryLeft(cfg, role.msg) then v.Goto(Republish)
      else Buried(role.msg, v, if v.pc.fault != NonRetryable then OutOfRetries
                               else if v.pc.delivering then RefusedDelivery else RefusedOutside)
  {
    if v.pc.fault != NonRetryable && RetryLeft(cfg, role.msg) {
      RepublishedFailure(cfg, role, v, env, n);
    } else {
      HopelessFailure(cfg, role, v, env, answer, n);
    }
  }

  // ----- A handler from start to end -----

  /** What the first check lets through: every job posting, and an analysis that did not wait too long. */
  predicate PassesCheck(m: Message, c: Choice) { m.taskType == JobPosting || c.reply.Fine? }

  /** An open task, and everything in order but for the first check. The handler finishes the task, reusing a
      spooled or a stored result, exactly when the message passes that check; otherwise it fails the task, or
      republishes the message if the check broke off with an error that can be retried. */
  lemma HealthyHandler(cfg: Config, role: Role, v: View, env: Environment, answer: Payload, n: nat)
    requires Healthy(env, answer) && role.Handler? && v.pc == Start && v.task.status == Open && !v.inLedger
    requires n >= Rank(cfg, 1, v.pc)
    ensures var m := role.msg; var w := Walk(cfg, role, v, env, n); var f := env(v).reply;
      w == if PassesCheck(m, env(v)) then
             View(Settle(Ack(Processed)), None, false, ServerTask(Success, true),
                  v.log + Story(m, answer, Start, v.slot, v.task))
           else if f.fault != NonRetryable && RetryLeft(cfg, m) then v.Goto(Republish)
           else Buried(m, v, if f.fault != NonRetryable then OutOfRetries else RefusedOutside)
    ensures Walk(cfg, role, v, env, n).task.status == Success <==> PassesCheck(role.msg, env(v))
  {
    ProcessRank(cfg, 1, role.msg, v, env(v));
    ProcessWalk(cfg, role, v, env, n);
    HealthyIsInOrder(cfg, env, answer, Start);
    var w := ProcessStep(cfg, role.msg, v, env(v));
    Onward(cfg, env, answer, Start, w);
    if PassesCheck(role.msg, env(v)) {
      HealthyProcessing(cfg, role, w, env, answer, n - 1);
    } else {
      HealthyFailure(cfg, role, w, env, answer, n - 1);
    }
  }
}

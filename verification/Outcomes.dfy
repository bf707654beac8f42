/** What single faults come to: one request or write fails, or finds the task decided, and everything after it is in
    order. Each lemma gives the whole view in which the actor ends, and so what became of the task, the spool entry,
    the ledger, the message and the history. */
module Outcomes {
  import opened Registry
  import opened Protocol
  import opened LocalInvariant
  import opened Progress
  import opened Worker

  // ----- How a delivery can end -----

  /** The entry is dropped and nothing else changes. */
  function Dropped(role: Role, v: View): View { View(Finished(role), None, v.inLedger, v.task, v.log) }

  /** A refusal: the entry is dropped; a replay lets the scan go on, a handler gives the task up. */
  function Refusal(role: Role, v: View): View
    requires v.pc.Deliver?
  {
    var w := View(v.pc, None, v.inLedger, v.task, v.log + [Rejected(v.pc.entry.key)]);
    if role.Replay? then w.Goto(Releasing(false)) else Buried(role.msg, w, RefusedDelivery)
  }

  /** An error nobody expected: a replay ends the scan, a handler republishes its message or is out of retries. */
  function Breakdown(cfg: Config, role: Role, v: View): View {
    if role.Replay? then v.Goto(Releasing(true))
    else if RetryLeft(cfg, role.msg) then v.Goto(Republish)
    else Buried(role.msg, v, OutOfRetries)
  }

  /** A failed attempt: after the last one the entry stays in the spool with the count of the attempts, otherwise
      the next attempt is in order. */
  function Again(cfg: Config, role: Role, v: View): View
    requires v.pc.Deliver?
  {
    var e := v.pc.entry;
    if v.pc.attempt >= 1 && v.pc.attempt >= cfg.apiAttempts then
      View(Finished(role), Some(e.(attemptCount := v.pc.attempt)), v.inLedger, v.task, v.log)
    else if e.taskType.Some? && v.task.status == Success then Dropped(role, v)
    else if e.taskType.Some? && v.task.status == Failure then Refusal(role, v)
    else View(Finished(role), None, v.inLedger, ServerTask(Success, true), v.log + Told(AskTerminal, e))
  }

  // ----- One step, and the ends -----

  lemma Takes(cfg: Config, role: Role, v: View, env: Environment, answer: Payload, n: nat) returns (w: View)
    requires InOrderAfter(cfg, env, answer, v.pc) && v.pc.Deliver? && n >= Rank(cfg, 1, v.pc)
    ensures w == DeliverStep(cfg, v, env(v)) && InOrderFrom(cfg, env, answer, w)
    ensures n > 0 && n - 1 >= Rank(cfg, 1, w.pc) && Walk(cfg, role, v, env, n) == Walk(cfg, role, w, env, n - 1)
  {
    w := DeliverStep(cfg, v, env(v));
    DeliverRank(cfg, 1, v, env(v));
    DeliverWalk(cfg, role, v, env, n);
    Onward(cfg, env, answer, v.pc, w);
  }

  lemma EndTakes(cfg: Config, role: Role, v: View, env: Environment, n: nat)
    requires v.pc.Ended? && n > 0
    ensures Walk(cfg, role, v, env, n) == Walk(cfg, role, v.Goto(AfterDelivery(role, v.pc.outcome)), env, n - 1)
  {}

  lemma AtRest(cfg: Config, role: Role, v: View, env: Environment, n: nat)
    requires v.pc.Releasing? || v.pc.Settle? || v.pc.Republish?
    ensures Walk(cfg, role, v, env, n) == v
  {}

  lemma RaisedEnd(cfg: Config, role: Role, v: View, f: Fault, env: Environment, answer: Payload, n: nat)
    requires InOrderAfter(cfg, env, answer, v.pc) && v.pc == Ended(Raising(f)) && f != Retryable && n >= 8
    ensures Walk(cfg, role, v, env, n) ==
      if f == Unexpected then Breakdown(cfg, role, v)
      else if role.Replay? then v.Goto(Releasing(false)) else Buried(role.msg, v, RefusedDelivery)
  {
    EndTakes(cfg, role, v, env, n);
    if role.Replay? {
      AtRest(cfg, role, v.Goto(Releasing(f == Unexpected)), env, n - 1);
    } else {
      HealthyFailure(cfg, role, v.Goto(Raised(f, true)), env, answer, n - 1);
    }
  }

  lemma DeferredEnd(cfg: Config, role: Role, v: View, env: Environment, n: nat)
    requires v.pc == Ended(Deferred) && n >= 1
    ensures Walk(cfg, role, v, env, n) == v.Goto(Finished(role))
  {
    EndTakes(cfg, role, v, env, n);
    AtRest(cfg, role, v.Goto(Finished(role)), env, n - 1);
  }

  lemma RefusedEnd(cfg: Config, role: Role, v: View, env: Environment, answer: Payload, n: nat)
    requires InOrderFrom(cfg, env, answer, v) && v.pc.Deliver? && v.pc.at == DropRejected && n >= Rank(cfg, 1, v.pc)
    ensures var w := View(v.pc, None, v.inLedger, v.task, v.log);
      Walk(cfg, role, v, env, n) ==
        if role.Replay? then w.Goto(Releasing(false)) else Buried(role.msg, w, RefusedDelivery)
  {
    var w := Takes(cfg, role, v, env, answer, n);
    RaisedEnd(cfg, role, w, NonRetryable, env, answer, n - 1);
  }

  // ----- A task that succeeded before -----

  /** The points at which a delivery asks for the status of a task that has a type, or is about to. */
  predicate StatusPoint(at: DeliverAt) {
    at == EnsureRequestId || at == AskTerminal || at == AfterRetryable || at == AfterNonRetryable
  }

  lemma DecidedOnce(cfg: Config, role: Role, v: View, env: Environment, answer: Payload, n: nat)
    requires InOrderFrom(cfg, env, answer, v) && v.pc.Deliver? && StatusPoint(v.pc.at) && v.pc.at != EnsureRequestId
    requires v.pc.entry.taskType.Some? && v.task.status == Success && n >= Rank(cfg, 1, v.pc)
    ensures Walk(cfg, role, v, env, n) == Dropped(role, v)
  {
    var w := Takes(cfg, role, v, env, answer, n);
    DropWalk(cfg, role, w, env, n - 1);
  }

  /** The task has succeeded already: before the first request, or after a request whose answer was an error. The
      entry is dropped, nothing is sent, and the delivery counts as done. */
  lemma DecidedDelivery(cfg: Config, role: Role, v: View, env: Environment, answer: Payload, n: nat)
    requires InOrderFrom(cfg, env, answer, v) && v.pc.Deliver? && StatusPoint(v.pc.at)
    requires v.pc.entry.taskType.Some? && v.task.status == Success && n >= Rank(cfg, 1, v.pc)
    ensures Walk(cfg, role, v, env, n) == Dropped(role, v)
  {
    if v.pc.at == EnsureRequestId {
      var w := Takes(cfg, role, v, env, answer, n);
      DecidedOnce(cfg, role, w, env, answer, n - 1);
    } else {
      DecidedOnce(cfg, role, v, env, answer, n);
    }
  }

  // ----- A refusal -----

  /** What counts as a refusal: a request that was not for sending again, or a task found failed. After a refused
      completion anything counts but a task that succeeded all the same. */
  predicate RefusedAt(v: View, r: Reply)
    requires v.pc.Deliver?
  {
    var typed := v.pc.entry.taskType.Some?;
    match v.pc.at
    case AskTerminal => typed && (r == Failed(NonRetryable) || (r.Fine? && v.task.status == Failure))
    case AfterRetryable => typed && (r == Failed(NonRetryable) || (r.Fine? && v.task.status == Failure))
    case AfterNonRetryable => !typed || r == Failed(NonRetryable) || (r.Fine? && v.task.status != Success)
    case EnsureStored => r == Failed(NonRetryable)
    case StoreForEntry => r == Failed(NonRetryable)
    case ConfirmStoredForEntry => r == Failed(NonRetryable)
    case _ => false
  }

  /** A refused delivery drops the entry, and only then may the result be lost. */
  lemma RefusedAttempt(cfg: Config, role: Role, v: View, env: Environment, answer: Payload, n: nat)
    requires InOrderAfter(cfg, env, answer, v.pc) && v.pc.Deliver? && RefusedAt(v, env(v).reply)
    requires n >= Rank(cfg, 1, v.pc)
    ensures Walk(cfg, role, v, env, n) == Refusal(role, v)
  {
    var w := Takes(cfg, role, v, env, answer, n);
    RefusedEnd(cfg, role, w, env, answer, n - 1);
  }

  /** A failed task, from the start of a delivery on. */
  lemma FailedDelivery(cfg: Config, role: Role, v: View, env: Environment, answer: Payload, n: nat)
    requires InOrderFrom(cfg, env, answer, v) && v.pc.Deliver? && v.pc.at == EnsureRequestId
    requires v.pc.entry.taskType.Some? && v.task.status == Failure && n >= Rank(cfg, 1, v.pc)
    ensures Walk(cfg, role, v, env, n) == Refusal(role, v)
  {
    var w := Takes(cfg, role, v, env, answer, n);
    RefusedAttempt(cfg, role, w, env, answer, n - 1);
  }

  // ----- An unexpected error -----

  /** The points that only ask. */
  predicate AskingPoint(v: View)
    requires v.pc.Deliver?
  {
    v.pc.at == EnsureStored || v.pc.at == ConfirmStoredForEntry
    || (v.pc.entry.taskType.Some?
        && (v.pc.at == AskTerminal || v.pc.at == AfterRetryable || v.pc.at == AfterNonRetryable))
  }

  lemma BrokenAsking(cfg: Config, role: Role, v: View, env: Environment, answer: Payload, n: nat)
    requires InOrderAfter(cfg, env, answer, v.pc) && v.pc.Deliver? && AskingPoint(v)
    requires env(v).reply == Failed(Unexpected) && n >= Rank(cfg, 1, v.pc)
    ensures Walk(cfg, role, v, env, n) == Breakdown(cfg, role, v)
  {
    var w := Takes(cfg, role, v, env, answer, n);
    RaisedEnd(cfg, role, w, Unexpected, env, answer, n - 1);
  }

  /** What a failed write of an entry, or a failed delete, may have done to the slot. */
  function SlotAfter(v: View, effect: bool): Option<Entry>
    requires v.pc.Deliver?
  {
    if !effect then v.slot
    else match v.pc.at
      case EnsureRequestId => Some(v.pc.entry.(hasRequestId := true))
      case AttemptFailed => Some(v.pc.entry.(attemptCount := v.pc.attempt))
      case DropDelivered => None
      case DropRejected => None
      case _ => v.slot
  }

  /** A file operation that fails breaks the delivery off, whatever the error. */
  lemma BrokenFile(cfg: Config, role: Role, v: View, env: Environment, answer: Payload, n: nat)
    requires InOrderAfter(cfg, env, answer, v.pc) && v.pc.Deliver? && env(v).reply.Failed? && n >= Rank(cfg, 1, v.pc)
    requires (v.pc.at == EnsureRequestId && !v.pc.entry.hasRequestId) || v.pc.at == AttemptFailed
          || v.pc.at == DropDelivered || v.pc.at == DropRejected
    ensures Walk(cfg, role, v, env, n) == Breakdown(cfg, role, v.(slot := SlotAfter(v, env(v).effect)))
  {
    var w := Takes(cfg, role, v, env, answer, n);
    RaisedEnd(cfg, role, w, Unexpected, env, answer, n - 1);
  }

  /** So does an unexpected error of the two requests, which may have gone through. */
  lemma BrokenRequest(cfg: Config, role: Role, v: View, env: Environment, answer: Payload, n: nat)
    requires InOrderAfter(cfg, env, answer, v.pc) && v.pc.Deliver? && env(v).reply == Failed(Unexpected)
    requires (v.pc.at == StoreForEntry || v.pc.at == Complete) && n >= Rank(cfg, 1, v.pc)
    ensures var e := v.pc.entry; var effect := env(v).effect;
      Walk(cfg, role, v, env, n) == Breakdown(cfg, role,
        if v.pc.at == StoreForEntry then v.(task := ServerTask(v.task.status, v.task.stored || effect))
        else v.(task := ServerTask(if effect && v.task.status == Open then Success else v.task.status, v.task.stored),
                log := v.log + [CompletionSent(e.key, v.task.stored, e.taskType.Some?)]))
  {
    var w := Takes(cfg, role, v, env, answer, n);
    RaisedEnd(cfg, role, w, Unexpected, env, answer, n - 1);
  }

  // ----- An attempt that can be repeated -----

  /** A task whose completion the server would still accept. */
  predicate Completable(v: View)
    requires v.pc.Deliver?
  {
    v.pc.entry.taskType.None? ==> v.task.status != Failure
  }

  lemma NextAttempt(cfg: Config, role: Role, v: View, env: Environment, answer: Payload, n: nat)
    requires InOrderFrom(cfg, env, answer, v) && v.pc.Deliver? && v.pc.at == AskTerminal && Completable(v)
    requires n >= Rank(cfg, 1, v.pc)
    ensures var e := v.pc.entry;
      Walk(cfg, role, v, env, n) ==
        if e.taskType.Some? && v.task.status == Success then Dropped(role, v)
        else if e.taskType.Some? && v.task.status == Failure then Refusal(role, v)
        else View(Finished(role), None, v.inLedger, ServerTask(Success, true), v.log + Told(AskTerminal, e))
  {
    if v.pc.entry.taskType.Some? && v.task.status == Success {
      DecidedDelivery(cfg, role, v, env, answer, n);
    } else if v.pc.entry.taskType.Some? && v.task.status == Failure {
      RefusedAttempt(cfg, role, v, env, answer, n);
    } else {
      HealthyDelivery(cfg, role, v, env, answer, n);
    }
  }

  lemma AfterFailedAttempt(cfg: Config, role: Role, v: View, env: Environment, answer: Payload, n: nat)
    requires InOrderFrom(cfg, env, answer, v) && v.pc.Deliver? && v.pc.at == AttemptFailed && Completable(v)
    requires v.pc.attempt >= 1 && n >= Rank(cfg, 1, v.pc)
    ensures Walk(cfg, role, v, env, n) == Again(cfg, role, v)
  {
    var w := Takes(cfg, role, v, env, answer, n);
    if v.pc.attempt >= cfg.apiAttempts {
      DeferredEnd(cfg, role, w, env, n - 1);
    } else {
      NextAttempt(cfg, role, w, env, answer, n - 1);
    }
  }

  /** What an attempt can be repeated after. */
  predicate RepeatedAt(v: View, r: Reply)
    requires v.pc.Deliver?
  {
    var typed := v.pc.entry.taskType.Some?;
    match v.pc.at
    case AskTerminal => typed && r == Failed(Retryable)
    case EnsureStored => r == Failed(Retryable)
    case ConfirmStoredForEntry => r == Failed(Retryable) || (r.Fine? && !v.task.stored)
    case AfterRetryable => !typed || r == Failed(Retryable) || (r.Fine? && v.task.status == Open)
    case AfterNonRetryable => typed && r == Failed(Retryable)
    case _ => false
  }

  lemma RepeatingStep(cfg: Config, v: View, c: Choice)
    requires v.pc.Deliver? && RepeatedAt(v, c.reply)
    ensures var found := v.pc.at == AfterRetryable && v.pc.entry.taskType.Some? && c.reply.Fine?;
      DeliverStep(cfg, v, c) ==
        (if found then v.(log := v.log + [FoundOpen(v.pc.entry.key)]) else v).Goto(v.pc.(at := AttemptFailed))
  {}

  /** An attempt that failed retryably is repeated while attempts are left, and otherwise put off, with the entry and
      its final count in the spool. A status found open on the way is in the history. */
  lemma RepeatedDelivery(cfg: Config, role: Role, v: View, env: Environment, answer: Payload, n: nat)
    requires InOrderAfter(cfg, env, answer, v.pc) && v.pc.Deliver? && RepeatedAt(v, env(v).reply)
    requires Completable(v) && v.pc.attempt >= 1 && n >= Rank(cfg, 1, v.pc)
    ensures var found := v.pc.at == AfterRetryable && v.pc.entry.taskType.Some? && env(v).reply.Fine?;
      Walk(cfg, role, v, env, n) ==
        Again(cfg, role, if found then v.(log := v.log + [FoundOpen(v.pc.entry.key)]) else v)
  {
    var w := Takes(cfg, role, v, env, answer, n);
    RepeatingStep(cfg, v, env(v));
    AfterFailedAttempt(cfg, role, w, env, answer, n - 1);
  }

  // ----- What is not done again -----

  /** An entry that has its request id is not written, and without a task type no status is asked for: whatever a write
      or a request would have come to there. */
  lemma NothingToDo(cfg: Config, role: Role, v: View, env: Environment, n: nat)
    requires v.pc.Deliver? && n >= 1
    ensures v.pc.at == EnsureRequestId && v.pc.entry.hasRequestId ==>
      Walk(cfg, role, v, env, n) == Walk(cfg, role, v.Goto(v.pc.(at := AskTerminal)), env, n - 1)
    ensures v.pc.at == AskTerminal && v.pc.entry.taskType.None? ==>
      Walk(cfg, role, v, env, n) == Walk(cfg, role, v.Goto(v.pc.(at := EnsureStored)), env, n - 1)
  {
    DeliverWalk(cfg, role, v, env, n);
  }

  /** A result that is on the server is not stored again: whatever a store request would have come to, the delivery
      completes. */
  lemma StoredIsNotSentAgain(cfg: Config, role: Role, v: View, env: Environment, answer: Payload, n: nat)
    requires v.pc.Deliver? && v.pc.at == EnsureStored && v.task == ServerTask(Open, true) && env(v).reply.Fine?
    requires InOrderFrom(cfg, env, answer, v.Goto(v.pc.(at := Complete))) && n >= Rank(cfg, 1, v.pc)
    ensures Walk(cfg, role, v, env, n) ==
      View(Finished(role), None, v.inLedger, ServerTask(Success, true),
           v.log + [CompletionSent(v.pc.entry.key, true, v.pc.entry.taskType.Some?)])
  {
    DeliverWalk(cfg, role, v, env, n);
    HealthyDelivery(cfg, role, v.Goto(v.pc.(at := Complete)), env, answer, n - 1);
  }

  // ----- Lost responses -----

  lemma StoredOnTheWay(cfg: Config, role: Role, v: View, env: Environment, answer: Payload, n: nat)
    requires InOrderFrom(cfg, env, answer, v) && v.pc.Deliver? && v.pc.at == ConfirmStoredForEntry
    requires v.task == ServerTask(Open, true) && n >= Rank(cfg, 1, v.pc)
    ensures Walk(cfg, role, v, env, n) ==
      View(Finished(role), None, v.inLedger, ServerTask(Success, true),
           v.log + [CompletionSent(v.pc.entry.key, true, v.pc.entry.taskType.Some?)])
  {
    var w := Takes(cfg, role, v, env, answer, n);
    HealthyDelivery(cfg, role, w, env, answer, n - 1);
  }

  /** The store request answers with a retryable error. If the result is on the server all the same, the delivery
      goes on to completing; if not, the attempt is repeated. */
  lemma LostStoreResponse(cfg: Config, role: Role, v: View, env: Environment, answer: Payload, n: nat)
    requires InOrderAfter(cfg, env, answer, v.pc) && v.pc.Deliver? && v.pc.at == StoreForEntry
    requires env(v).reply == Failed(Retryable) && v.pc.attempt >= 1 && n >= Rank(cfg, 1, v.pc)
    requires v.task.status == Open
    ensures Walk(cfg, role, v, env, n) ==
      if v.task.stored || env(v).effect then
        View(Finished(role), None, v.inLedger, ServerTask(Success, true),
             v.log + [CompletionSent(v.pc.entry.key, true, v.pc.entry.taskType.Some?)])
      else Again(cfg, role, v)
  {
    var w := Takes(cfg, role, v, env, answer, n);
    if w.task.stored {
      StoredOnTheWay(cfg, role, w, env, answer, n - 1);
    } else {
      RepeatedDelivery(cfg, role, w, env, answer, n - 1);
    }
  }

  /** The completion answers with a retryable error. If it went through the delivery is done, with one completion
      sent, as long as the status can be asked for; otherwise the attempt is repeated. */
  lemma LostCompletionResponse(cfg: Config, role: Role, v: View, env: Environment, answer: Payload, n: nat)
    requires InOrderAfter(cfg, env, answer, v.pc) && v.pc.Deliver? && v.pc.at == Complete
    requires env(v).reply == Failed(Retryable) && v.pc.attempt >= 1 && v.task == ServerTask(Open, true)
    requires n >= Rank(cfg, 1, v.pc)
    ensures var e := v.pc.entry; var typed := e.taskType.Some?; var effect := env(v).effect;
      var w := v.(task := ServerTask(if effect then Success else Open, true),
                  log := v.log + [CompletionSent(e.key, true, typed)]);
      Walk(cfg, role, v, env, n) ==
        if typed && effect then Dropped(role, w)
        else if typed then Again(cfg, role, w.(log := w.log + [FoundOpen(e.key)]))
        else Again(cfg, role, w)
  {
    var w := Takes(cfg, role, v, env, answer, n);
    if v.pc.entry.taskType.Some? && env(v).effect {
      DecidedDelivery(cfg, role, w, env, answer, n - 1);
    } else {
      RepeatedDelivery(cfg, role, w, env, answer, n - 1);
    }
  }

  /** The completion is refused: unless the task succeeded all the same the entry is dropped. */
  lemma RefusedCompletion(cfg: Config, role: Role, v: View, env: Environment, answer: Payload, n: nat)
    requires InOrderAfter(cfg, env, answer, v.pc) && v.pc.Deliver? && v.pc.at == Complete
    requires env(v).reply == Failed(NonRetryable) && n >= Rank(cfg, 1, v.pc)
    ensures var e := v.pc.entry; var typed := e.taskType.Some?;
      var w := v.(log := v.log + [CompletionSent(e.key, v.task.stored, typed)]);
      Walk(cfg, role, v, env, n) ==
        if typed && v.task.status == Success then Dropped(role, w) else Refusal(role, w)
  {
    var w := Takes(cfg, role, v, env, answer, n);
    if v.pc.entry.taskType.Some? && v.task.status == Success {
      DecidedDelivery(cfg, role, w, env, answer, n - 1);
    } else {
      RefusedAttempt(cfg, role, w, env, answer, n - 1);
    }
  }

  // ----- A processor that fails -----

  /** The fault with which a processor breaks off at this point, if it does. Any failure to spool a result counts as
      retryable, and so does a result that could not be stored in as many attempts as there are. */
  function RaisedAt(cfg: Config, m: Message, v: View, c: Choice): Option<Fault> {
    if c.reply.Fine? then
      (if v.pc.ConfirmStored? && !v.task.stored && v.pc.attempt >= cfg.apiAttempts then Some(Retryable) else None)
    else match v.pc
      case Start => if m.taskType == Analysis then Some(c.reply.fault) else None
      case AskStatus => Some(c.reply.fault)
      case AskStored => Some(c.reply.fault)
      case Prepare => Some(c.reply.fault)
      case Llm(calls) => if calls > 0 && c.enough then Some(c.reply.fault) else None
      case EnqueueStored(_) => Some(Retryable)
      case EnqueueResult(_) => Some(Retryable)
      case StoreResult(_, _) => if c.reply.fault != Retryable then Some(c.reply.fault) else None
      case ConfirmStored(_, k) =>
        if c.reply.fault != Retryable || k >= cfg.apiAttempts then Some(c.reply.fault) else None
      case _ => None
  }

  /** What the failed request or write may have done all the same. */
  function LeftAt(m: Message, v: View, c: Choice): View {
    var k := TaskKey(m.taskId, m.taskType);
    if c.reply.Fine? || !c.effect then v
    else match v.pc
      case EnqueueStored(p) => v.(slot := Some(Entry(k, Some(k.kind), true, p, 0)), log := v.log + [Spooled(k, p)])
      case EnqueueResult(p) => v.(slot := Some(Entry(k, Some(k.kind), true, p, 0)), log := v.log + [Spooled(k, p)])
      case StoreResult(_, _) =>
        if c.reply.fault == NonRetryable then v else v.(task := ServerTask(v.task.status, true))
      case _ => v
  }

  lemma RaisingStep(cfg: Config, m: Message, v: View, c: Choice)
    requires ProcessorPc(v.pc) && RaisedAt(cfg, m, v, c).Some?
    requires v.pc.StoreResult? || v.pc.ConfirmStored? ==> v.pc.attempt >= 1
    ensures ProcessStep(cfg, m, v, c) == LeftAt(m, v, c).Goto(Raised(RaisedAt(cfg, m, v, c).value, false))
  {}

  /** A processor that breaks off with an error that is no refusal leaves the status of the task alone and has its
      message republished while a retry is left. Only a refusal, or the last retry, gives the task up. */
  lemma RaisedProcessing(cfg: Config, role: Role, v: View, env: Environment, answer: Payload, n: nat)
    requires InOrderAfter(cfg, env, answer, v.pc) && role.Handler? && ProcessorPc(v.pc)
    requires RaisedAt(cfg, role.msg, v, env(v)).Some? && n >= Rank(cfg, 1, v.pc)
    requires v.pc.StoreResult? || v.pc.ConfirmStored? ==> v.pc.attempt >= 1
    ensures var f := RaisedAt(cfg, role.msg, v, env(v)).value; var left := LeftAt(role.msg, v, env(v));
      && left.task.status == v.task.status
      && Walk(cfg, role, v, env, n) ==
           if f != NonRetryable && RetryLeft(cfg, role.msg) then left.Goto(Republish)
           else Buried(role.msg, left, if f == NonRetryable then RefusedOutside else OutOfRetries)
  {
    var w := ProcessStep(cfg, role.msg, v, env(v));
    RaisingStep(cfg, role.msg, v, env(v));
    assert Patient(v.pc, env(v), 1);
    ProcessRank(cfg, 1, role.msg, v, env(v));
    ProcessWalk(cfg, role, v, env, n);
    HealthyFailure(cfg, role, w, env, answer, n - 1);
  }

  // ----- A processor that goes on -----

  /** A task decided before the handler came to it is left as it is, and the message acknowledged. */
  lemma DecidedProcessing(cfg: Config, role: Role, v: View, env: Environment, n: nat)
    requires role.Handler? && v.pc == AskStatus && env(v).reply.Fine? && v.task.status != Open && n >= 1
    ensures Walk(cfg, role, v, env, n) == v.Goto(Settle(Ack(Processed)))
  {
    ProcessWalk(cfg, role, v, env, n);
    AtRest(cfg, role, v.Goto(Settle(Ack(Processed))), env, n - 1);
  }

  /** A processor's result is on the server, and is completed. */
  lemma StoredProcessing(cfg: Config, role: Role, v: View, env: Environment, answer: Payload, n: nat)
    requires InOrderFrom(cfg, env, answer, v) && role.Handler? && v.pc.ConfirmStored?
    requires v.task == ServerTask(Open, true) && n >= Rank(cfg, 1, v.pc)
    ensures Walk(cfg, role, v, env, n) ==
      View(Settle(Ack(Processed)), None, v.inLedger, ServerTask(Success, true),
           v.log + Told(EnsureRequestId, v.pc.entry))
  {
    var w := ProcessStep(cfg, role.msg, v, env(v));
    ProcessRank(cfg, 1, role.msg, v, env(v));
    ProcessWalk(cfg, role, v, env, n);
    Onward(cfg, env, answer, v.pc, w);
    HealthyDelivery(cfg, role, w, env, answer, n - 1);
  }

  /** The result did not arrive: while attempts are left it is sent again. */
  lemma StoredAgain(cfg: Config, role: Role, v: View, env: Environment, answer: Payload, n: nat)
    requires InOrderFrom(cfg, env, answer, v) && role.Handler? && v.pc.ConfirmStored?
    requires v.task == ServerTask(Open, false) && 1 <= v.pc.attempt < cfg.apiAttempts && n >= Rank(cfg, 1, v.pc)
    ensures Walk(cfg, role, v, env, n) ==
      View(Settle(Ack(Processed)), None, v.inLedger, ServerTask(Success, true),
           v.log + Told(EnsureRequestId, v.pc.entry))
  {
    var w := ProcessStep(cfg, role.msg, v, env(v));
    ProcessRank(cfg, 1, role.msg, v, env(v));
    ProcessWalk(cfg, role, v, env, n);
    Onward(cfg, env, answer, v.pc, w);
    HealthyProcessing(cfg, role, w, env, answer, n - 1);
  }

  /** A processor's store request answers with a retryable error. Whether or not the result arrived, an open task is
      completed in the end, unless the result did not arrive and this was the last attempt: then the message is
      republished, or without a retry the task given up, and the result stays in the spool. */
  lemma LostStoreOfProcessor(cfg: Config, role: Role, v: View, env: Environment, answer: Payload, n: nat)
    requires InOrderAfter(cfg, env, answer, v.pc) && role.Handler? && v.pc.StoreResult? && v.pc.attempt >= 1
    requires env(v).reply == Failed(Retryable) && v.task.status == Open && n >= Rank(cfg, 1, v.pc)
    ensures var arrived := v.task.stored || env(v).effect;
      Walk(cfg, role, v, env, n) ==
        if arrived || v.pc.attempt < cfg.apiAttempts then
          View(Settle(Ack(Processed)), None, v.inLedger, ServerTask(Success, true),
               v.log + Told(EnsureRequestId, v.pc.entry))
        else if RetryLeft(cfg, role.msg) then v.Goto(Republish)
        else Buried(role.msg, v, OutOfRetries)
  {
    var w := ProcessStep(cfg, role.msg, v, env(v));
    ProcessRank(cfg, 1, role.msg, v, env(v));
    ProcessWalk(cfg, role, v, env, n);
    Onward(cfg, env, answer, v.pc, w);
    if w.task.stored {
      StoredProcessing(cfg, role, w, env, answer, n - 1);
    } else if v.pc.attempt < cfg.apiAttempts {
      StoredAgain(cfg, role, w, env, answer, n - 1);
    } else {
      RaisedProcessing(cfg, role, w, env, answer, n - 1);
    }
  }

  /** An LLM phase goes on for one more call until it has made one and needs no more. */
  lemma LlmGoesOn(cfg: Config, role: Role, v: View, env: Environment, n: nat)
    requires role.Handler? && v.pc.Llm? && (v.pc.calls == 0 || !env(v).enough) && n >= 1
    ensures Walk(cfg, role, v, env, n) ==
      Walk(cfg, role, v.(pc := Llm(v.pc.calls + 1), log := v.log + [LlmCalled(role.Key())]), env, n - 1)
  {
    ProcessWalk(cfg, role, v, env, n);
  }

  // ----- The failing family -----

  /** What a replay of `e` sees at its start when a handler of its task has left things as in `v`. */
  function ReplayOf(v: View, e: Entry): View { v.(pc := Deliver(EnsureRequestId, e, 1), inLedger := false) }

  /** An analysis that waited too long is refused before anyone looks for its result. Its finished result, spooled
      and still owed, is not completed: the task is failed and the message dead-lettered, and the next scan drops the
      entry. */
  lemma ExpiryLosesResult(cfg: Config, role: Role, v: View, env: Environment, answer: Payload, n: nat)
    requires Healthy(env, answer) && role.Handler? && v.pc == Start && v.task.status == Open && !v.inLedger
    requires role.msg.taskType == Analysis && env(v).reply == Failed(NonRetryable)
    requires v.slot.Some? && v.slot.value.key == role.Key() && v.slot.value.taskType.Some? && Owed(v.log, role.Key())
    requires n >= Rank(cfg, 1, v.pc) && n >= Rank(cfg, 1, Deliver(EnsureRequestId, v.slot.value, 1))
    ensures var failed := Walk(cfg, role, v, env, n); var e := v.slot.value;
      var replayed := Walk(cfg, Replay(role.Key()), ReplayOf(failed, e), env, n);
      && failed.pc == Settle(Ack(DlqDone)) && failed.task.status == Failure && failed.slot == Some(e)
      && Owed(failed.log, role.Key())
      && replayed.slot == None && replayed.task.status == Failure && replayed.log == failed.log + [Rejected(role.Key())]
  {
    HealthyHandler(cfg, role, v, env, answer, n);
    var failed := Walk(cfg, role, v, env, n);
    HealthyIsInOrder(cfg, env, answer, Start);
    var replay := ReplayOf(failed, v.slot.value);
    Onward(cfg, env, answer, Start, replay);
    FailedDelivery(cfg, Replay(role.Key()), replay, env, answer, n);
    var posted := FailPosted(role.msg, RefusedOutside, true);
    SpooledAfter(v.log, posted, role.Key());
    SpooledAfter(v.log + [posted], DlqConfirmed(role.msg.Ref()), role.Key());
    assert failed.log == v.log + [posted] + [DlqConfirmed(role.msg.Ref())];
  }

  /** A message put on record by someone else while this handler failed its task is not published again. */
  lemma RecordedMeanwhile(cfg: Config, role: Role, v: View, env: Environment, n: nat)
    requires role.Handler? && v.pc == DlqCheck && v.inLedger && n >= 1
    ensures Walk(cfg, role, v, env, n) == v.Goto(Settle(Ack(LedgerHit)))
  {
    FailureWalk(cfg, role, v, env, n);
    AtRest(cfg, role, v.Goto(Settle(Ack(LedgerHit))), env, n - 1);
  }
}

/** The worker's code for one message, statement by statement: the delivery of a spool entry, the processors
    and the failure path, with their loops and their exceptions. Every method is proved to take exactly the
    local steps of `Protocol`, so what holds of the step system holds of this code. */
module Handling {
  import opened Registry
  import opened Protocol
  import opened LocalInvariant
  import opened Exclusion
  import opened Durability
  import opened Progress
  import opened Worker

  /** Some number of local steps leads from `v` to `w`. */
  ghost predicate Leads(cfg: Config, role: Role, env: Environment, v: View, w: View) {
    exists n: nat :: Walk(cfg, role, v, env, n) == w
  }

  lemma LeadsHere(cfg: Config, role: Role, env: Environment, v: View)
    ensures Leads(cfg, role, env, v, v)
  {
    assert Walk(cfg, role, v, env, 0) == v;
  }

  lemma WalkStops(cfg: Config, role: Role, v: View, env: Environment, n: nat)
    requires !LocalPc(role, v.pc)
    ensures Walk(cfg, role, v, env, n) == v
  {}

  lemma {:induction false} WalkAdds(cfg: Config, role: Role, v: View, env: Environment, m: nat, n: nat)
    ensures Walk(cfg, role, v, env, m + n) == Walk(cfg, role, Walk(cfg, role, v, env, m), env, n)
    decreases m
  {
    if !LocalPc(role, v.pc) {
      WalkStops(cfg, role, v, env, m + n);
      WalkStops(cfg, role, v, env, m);
      WalkStops(cfg, role, v, env, n);
    } else if m > 0 {
      WalkAdds(cfg, role, LocalStep(cfg, role, v, env(v)), env, m - 1, n);
    }
  }

  lemma Joins(cfg: Config, role: Role, env: Environment, v: View, w: View, x: View)
    requires Leads(cfg, role, env, v, w) && Leads(cfg, role, env, w, x)
    ensures Leads(cfg, role, env, v, x)
  {
    var m: nat :| Walk(cfg, role, v, env, m) == w;
    var n: nat :| Walk(cfg, role, w, env, n) == x;
    WalkAdds(cfg, role, v, env, m, n);
  }

  /** One more step on the way from `v`. */
  lemma Steps(cfg: Config, role: Role, env: Environment, v: View, w: View)
    requires Leads(cfg, role, env, v, w) && LocalPc(role, w.pc)
    ensures Leads(cfg, role, env, v, LocalStep(cfg, role, w, env(w)))
  {
    var x := LocalStep(cfg, role, w, env(w));
    assert Walk(cfg, role, w, env, 1) == Walk(cfg, role, x, env, 0) == x;
    Joins(cfg, role, env, v, w, x);
  }

  /** Where the code ends is where the step system ends, however many steps it is given. */
  lemma LeadsToTheEnd(cfg: Config, patience: nat, role: Role, env: Environment, v: View, w: View, n: nat)
    requires Leads(cfg, role, env, v, w) && !LocalPc(role, w.pc) && (LocalPc(role, v.pc) || Done(role, v.pc))
    requires (forall u: View :: Patient(u.pc, env(u), patience)) && n >= Rank(cfg, patience, v.pc)
    ensures Walk(cfg, role, v, env, n) == w && Done(role, w.pc)
  {
    var m: nat :| Walk(cfg, role, v, env, m) == w;
    LocalCodeEnds(cfg, patience, role, v, env, n);
    WalkAdds(cfg, role, v, env, m, n);
    WalkAdds(cfg, role, v, env, n, m);
    assert Walk(cfg, role, w, env, n) == w;
  }

  // ----- The code inside the system -----

  lemma PutThenSee(cfg: Config, s: State, a: nat, c: Choice)
    requires Inv(cfg, s) && Enabled(cfg, s, Local(a, c))
    ensures var w := LocalStep(cfg, s.actors[a].role, s.See(a), c); s.Put(a, w).See(a) == w
  {
    var role := s.actors[a].role;
    assert SlotInv(role.Key(), s.Slot(role.Key()), s.log);
    LocalStepKeeps(cfg, role, s.See(a), c);
    PutHere(s, a, LocalStep(cfg, role, s.See(a), c));
    assert Shaped(s.actors[a]);
  }

  /** The state after one local step of actor `a`. */
  function Advanced(cfg: Config, s: State, a: nat, c: Choice): State
    requires a in s.actors && LocalPc(s.actors[a].role, s.actors[a].pc)
  {
    s.Put(a, LocalStep(cfg, s.actors[a].role, s.See(a), c))
  }

  /** The system after up to `n` local steps of actor `a`, while nobody else acts. */
  function Alone(cfg: Config, s: State, a: nat, env: Environment, n: nat): State
    requires a in s.actors
    decreases n
  {
    if n == 0 || !LocalPc(s.actors[a].role, s.actors[a].pc) then s
    else Alone(cfg, Advanced(cfg, s, a, env(s.See(a))), a, env, n - 1)
  }

  ghost predicate Faithful(cfg: Config, s: State, a: nat, c: Choice, t: State) {
    a in s.actors && a in t.actors && t.actors[a].role == s.actors[a].role
    && LocalPc(s.actors[a].role, s.actors[a].pc) && t.See(a) == LocalStep(cfg, s.actors[a].role, s.See(a), c)
  }

  /** States which local steps of `a` do not leave, and in which they do to its view what its code says. */
  ghost predicate Closed(cfg: Config, a: nat, env: Environment, good: iset<State>) {
    forall s :: s in good && a in s.actors && LocalPc(s.actors[a].role, s.actors[a].pc) ==>
      var t := Advanced(cfg, s, a, env(s.See(a)));
      t in good && Faithful(cfg, s, a, env(s.See(a)), t)
  }

  lemma {:induction false} AloneWalks(cfg: Config, s: State, a: nat, env: Environment, n: nat, good: iset<State>)
    requires s in good && a in s.actors && Closed(cfg, a, env, good)
    ensures var t := Alone(cfg, s, a, env, n);
      t in good && a in t.actors && t.See(a) == Walk(cfg, s.actors[a].role, s.See(a), env, n)
    decreases n
  {
    if n > 0 && LocalPc(s.actors[a].role, s.actors[a].pc) {
      var t := Advanced(cfg, s, a, env(s.See(a)));
      assert t in good && Faithful(cfg, s, a, env(s.See(a)), t);
      AloneWalks(cfg, t, a, env, n - 1, good);
    }
  }

  lemma AdvancedKeeps(cfg: Config, s: State, a: nat, c: Choice)
    requires Inv(cfg, s) && a in s.actors && LocalPc(s.actors[a].role, s.actors[a].pc) && ServerAllows(s.See(a), c)
    ensures Inv(cfg, Advanced(cfg, s, a, c)) && Faithful(cfg, s, a, c, Advanced(cfg, s, a, c))
  {
    PutThenSee(cfg, s, a, c);
    StepInv(cfg, s, Local(a, c));
  }

  /** Running an actor's code undisturbed is running the system: from a state with all the invariants, against a
      server that accepts no completion of a failed task, it keeps them all, and leaves the actor with the view
      its code computed. */
  lemma AloneKeeps(cfg: Config, s: State, a: nat, env: Environment, n: nat)
    requires Inv(cfg, s) && a in s.actors && forall v: View :: ServerAllows(v, env(v))
    ensures var t := Alone(cfg, s, a, env, n);
      Inv(cfg, t) && a in t.actors && t.See(a) == Walk(cfg, s.actors[a].role, s.See(a), env, n)
  {
    var good := iset t: State | Inv(cfg, t);
    forall t | t in good && a in t.actors && LocalPc(t.actors[a].role, t.actors[a].pc)
      ensures Advanced(cfg, t, a, env(t.See(a))) in good
      ensures Faithful(cfg, t, a, env(t.See(a)), Advanced(cfg, t, a, env(t.See(a))))
    {
      AdvancedKeeps(cfg, t, a, env(t.See(a)));
    }
    AloneWalks(cfg, s, a, env, n, good);
  }

  /** One actor's view of the world it works on: its task's spool slot, ledger record and server record. */
  class TaskWorker {
    const cfg: Config
    const role: Role
    const env: Environment
    var slot: Option<Entry>
    var inLedger: bool
    var task: ServerTask
    var log: seq<Event>

    constructor (cfg: Config, role: Role, env: Environment, v: View)
      ensures this.cfg == cfg && this.role == role && this.env == env && Now(v.pc) == v
    {
      this.cfg, this.role, this.env := cfg, role, env;
      slot, inLedger, task, log := v.slot, v.inLedger, v.task, v.log;
    }

    function Now(pc: Pc): View
      reads this
    {
      View(pc, slot, inLedger, task, log)
    }

    ghost predicate From(v: View, pc: Pc)
      reads this
    {
      Leads(cfg, role, env, v, Now(pc))
    }

    method Upsert(e: Entry, at: Pc) returns (r: Reply)
      modifies this`slot
      ensures r == env(old(Now(at))).reply && Now(at) == old(Now(at)).Written(e, env(old(Now(at))))
    {
      var c := env(Now(at));
      r := c.reply;
      if r.Fine? || c.effect {
        slot := Some(e);
      }
    }

    method Delete(at: Pc) returns (r: Reply)
      modifies this`slot
      ensures r == env(old(Now(at))).reply
      ensures slot == if r.Fine? || env(old(Now(at))).effect then None else old(slot)
    {
      var c := env(Now(at));
      r := c.reply;
      if r.Fine? || c.effect {
        slot := None;
      }
    }

    /** The task's status, or nothing for an entry without a task type. */
    method GetTerminalState(e: Entry, at: Pc) returns (r: Reply, status: Option<Status>)
      ensures e.taskType.None? ==> r.Fine? && status.None?
      ensures e.taskType.Some? ==> r == env(Now(at)).reply && status == Some(task.status)
    {
      if e.taskType.None? {
        return Fine, None;
      }
      var c := env(Now(at));
      return c.reply, Some(task.status);
    }

    /** Post the result; if the answer gets lost, ask whether it was stored after all. */
    method StoreResultWithStateCheck(e: Entry, n: nat, ghost v: View) returns (r: Reply)
      requires From(v, Deliver(StoreForEntry, e, n))
      modifies this`task
      ensures if r.Fine? then From(v, Deliver(Complete, e, n))
              else Leads(cfg, role, env, v, AttemptFault(Now(Deliver(StoreForEntry, e, n)), r.fault))
    {
      var c := env(Now(Deliver(StoreForEntry, e, n)));
      Steps(cfg, role, env, v, Now(Deliver(StoreForEntry, e, n)));
      task := AfterStorePost(task, c);
      r := c.reply;
      if r == Failed(Retryable) {
        var asked := env(Now(Deliver(ConfirmStoredForEntry, e, n)));
        Steps(cfg, role, env, v, Now(Deliver(ConfirmStoredForEntry, e, n)));
        if asked.reply.Failed? {
          r := asked.reply;
        } else if task.stored {
          r := Fine;
        }
      }
    }

    method EnsureResultStored(e: Entry, n: nat, ghost v: View) returns (r: Reply)
      requires From(v, Deliver(EnsureStored, e, n))
      modifies this`task
      ensures if r.Fine? then From(v, Deliver(Complete, e, n))
              else Leads(cfg, role, env, v, AttemptFault(Now(Deliver(EnsureStored, e, n)), r.fault))
    {
      var c := env(Now(Deliver(EnsureStored, e, n)));
      Steps(cfg, role, env, v, Now(Deliver(EnsureStored, e, n)));
      r := c.reply;
      if r.Fine? && !task.stored {
        r := StoreResultWithStateCheck(e, n, v);
      }
    }

    /** Complete or finalize; after an error the task's state decides what the error means. */
    method CompleteWithStateCheck(e: Entry, n: nat, ghost v: View) returns (r: Reply)
      requires From(v, Deliver(Complete, e, n))
      modifies this`task, this`log
      ensures if r.Fine? then From(v, Deliver(DropDelivered, e, n))
              else Leads(cfg, role, env, v, AttemptFault(Now(Deliver(Complete, e, n)), r.fault))
    {
      var c := env(Now(Deliver(Complete, e, n)));
      Steps(cfg, role, env, v, Now(Deliver(Complete, e, n)));
      log := log + [CompletionSent(e.key, task.stored, e.taskType.Some?)];
      task := AfterCompletePost(task, c);
      r := c.reply;
      if r == Failed(Retryable) {
        Steps(cfg, role, env, v, Now(Deliver(AfterRetryable, e, n)));
        var asked, status := GetTerminalState(e, Deliver(AfterRetryable, e, n));
        if asked.Failed? {
          return asked;
        }
        if status == Some(Success) {
          return Fine;
        }
        if status == Some(Failure) {
          return Failed(NonRetryable);
        }
        if status == Some(Open) {
          log := log + [FoundOpen(e.key)];
        }
      } else if r == Failed(NonRetryable) {
        Steps(cfg, role, env, v, Now(Deliver(AfterNonRetryable, e, n)));
        var asked, status := GetTerminalState(e, Deliver(AfterNonRetryable, e, n));
        if asked.Failed? {
          return asked;
        }
        if status == Some(Success) {
          return Fine;
        }
      }
    }

    /** One attempt at delivering an entry. */
    method DeliverOnceWithStateCheck(e: Entry, n: nat, ghost v: View) returns (r: Reply)
      requires From(v, Deliver(AskTerminal, e, n))
      modifies this`task, this`log
      ensures if r.Fine? then From(v, Deliver(DropDelivered, e, n))
              else Leads(cfg, role, env, v, AttemptFault(Now(Deliver(AskTerminal, e, n)), r.fault))
    {
      Steps(cfg, role, env, v, Now(Deliver(AskTerminal, e, n)));
      var asked, status := GetTerminalState(e, Deliver(AskTerminal, e, n));
      if asked.Failed? {
        return asked;
      }
      if status == Some(Success) {
        return Fine;
      }
      if status == Some(Failure) {
        return Failed(NonRetryable);
      }
      if status == Some(Open) {
        log := log + [FoundOpen(e.key)];
      }
      r := EnsureResultStored(e, n, v);
      if r.Fine? {
        r := CompleteWithStateCheck(e, n, v);
      }
    }

    /** A refusal: the entry is dropped, and the refusal raised. */
    method DropRejectedEntry(e: Entry, n: nat, ghost v: View) returns (o: Outcome)
      requires Leads(cfg, role, env, v, AttemptFault(Now(Deliver(AskTerminal, e, n)), NonRetryable))
      modifies this`slot, this`log
      ensures From(v, Ended(o)) && o.Raising?
    {
      log := log + [Rejected(e.key)];
      Steps(cfg, role, env, v, Now(Deliver(DropRejected, e, n)));
      var dropped := Delete(Deliver(DropRejected, e, n));
      o := Raising(if dropped.Fine? then NonRetryable else Unexpected);
    }

    /** After a failed attempt the entry is brought up to date in the spool. */
    method NoteFailedAttempt(e: Entry, n: nat, ghost v: View) returns (written: Reply, noted: Entry)
      requires From(v, Deliver(AttemptFailed, e, n))
      modifies this`slot
      ensures From(v, if written.Failed? then Ended(Raising(Unexpected))
                      else if n < cfg.MaxAttempts() then Deliver(AskTerminal, noted, n + 1) else Ended(Deferred))
    {
      Steps(cfg, role, env, v, Now(Deliver(AttemptFailed, e, n)));
      noted := e.(attemptCount := n);
      written := Upsert(noted, Deliver(AttemptFailed, e, n));
    }

    /** Deliver an entry: up to the maximum number of attempts, the entry kept up to date in the spool between
        them and dropped once it is delivered or refused for good. */
    method DeliverPendingEntry(e: Entry, ghost v: View) returns (o: Outcome)
      requires From(v, Deliver(EnsureRequestId, e, 1))
      modifies this`slot, this`task, this`log
      ensures From(v, Ended(o))
    {
      var entry := e;
      Steps(cfg, role, env, v, Now(Deliver(EnsureRequestId, e, 1)));
      if !entry.hasRequestId {
        entry := entry.(hasRequestId := true);
        var written := Upsert(entry, Deliver(EnsureRequestId, e, 1));
        if written.Failed? {
          return Raising(Unexpected);
        }
      }
      var attempt: nat := 1;
      while true
        invariant 1 <= attempt <= cfg.MaxAttempts() && From(v, Deliver(AskTerminal, entry, attempt))
        decreases cfg.MaxAttempts() - attempt
      {
        var r := DeliverOnceWithStateCheck(entry, attempt, v);
        if r.Fine? {
          break;
        }
        if r.fault == Unexpected {
          return Raising(Unexpected);
        }
        if r.fault == NonRetryable {
          o := DropRejectedEntry(entry, attempt, v);
          return o;
        }
        var written;
        written, entry := NoteFailedAttempt(entry, attempt, v);
        if written.Failed? {
          return Raising(Unexpected);
        }
        if attempt >= cfg.MaxAttempts() {
          return Deferred;
        }
        attempt := attempt + 1;
      }
      Steps(cfg, role, env, v, Now(Deliver(DropDelivered, entry, attempt)));
      var dropped := Delete(Deliver(DropDelivered, entry, attempt));
      o := if dropped.Fine? then Delivered else Raising(Unexpected);
    }

    // ----- The processors -----

    /** Spool a fresh entry; any failure to do so is raised as retryable. */
    method EnqueuePendingDelivery(payload: Payload, at: Pc, ghost next: Pc) returns (r: Reply)
      requires role.Handler?
      modifies this`slot, this`log
      ensures r.Fine? || r == Failed(Retryable)
      ensures Now(if r.Fine? then next else Raised(Retryable, false)) ==
        Enqueue(old(Now(at)), role.msg, payload, next, env(old(Now(at))))
    {
      var c := env(Now(at));
      var written := Upsert(FreshEntry(role.msg, payload), at);
      if c.reply.Fine? || c.effect {
        log := log + [Spooled(role.msg.Key(), payload)];
      }
      r := if written.Fine? then Fine else Failed(Retryable);
    }

    /** Deliver an entry on behalf of a handler, which carries on even if the delivery is deferred. */
    method DeliverForHandler(e: Entry, ghost v: View) returns (r: Reply)
      requires role.Handler? && From(v, Deliver(EnsureRequestId, e, 1))
      modifies this`slot, this`task, this`log
      ensures From(v, if r.Fine? then Settle(Ack(Processed)) else Raised(r.fault, true))
    {
      var o := DeliverPendingEntry(e, v);
      Steps(cfg, role, env, v, Now(Ended(o)));
      r := if o.Raising? then Failed(o.fault) else Fine;
    }

    /** Finish the task without the LLM if it is terminal, or a result is spooled or stored. */
    method ResumeWithoutLlm(ghost v: View) returns (r: Reply, resumed: bool, delivering: bool)
      requires role.Handler? && From(v, AskStatus)
      modifies this`slot, this`task, this`log
      ensures From(v, if r.Failed? then Raised(r.fault, delivering)
                      else if resumed then Settle(Ack(Processed)) else Prepare)
    {
      var asked := env(Now(AskStatus));
      Steps(cfg, role, env, v, Now(AskStatus));
      if asked.reply.Failed? {
        return asked.reply, false, false;
      }
      if task.Terminal() {
        return Fine, true, false;
      }
      Steps(cfg, role, env, v, Now(AskSpool));
      if slot.Some? {
        r := DeliverForHandler(slot.value, v);
        return r, true, true;
      }
      var got := env(Now(AskStored));
      Steps(cfg, role, env, v, Now(AskStored));
      if got.reply.Failed? {
        return got.reply, false, false;
      }
      if !task.stored {
        return Fine, false, false;
      }
      var e := FreshEntry(role.msg, got.payload);
      Steps(cfg, role, env, v, Now(EnqueueStored(got.payload)));
      r := EnqueuePendingDelivery(got.payload, EnqueueStored(got.payload), Deliver(EnsureRequestId, e, 1));
      resumed, delivering := true, r.Fine?;
      if r.Fine? {
        r := DeliverForHandler(e, v);
      }
    }

    /** The LLM phase: at least one call, and no more than `patience`. */
    method RunLlm(patience: nat, ghost v: View) returns (r: Reply, payload: Payload)
      requires role.Handler? && From(v, Llm(0)) && forall w: View :: Patient(w.pc, env(w), patience)
      modifies this`log
      ensures From(v, if r.Failed? then Raised(r.fault, false) else EnqueueResult(payload))
    {
      var calls: nat := 0;
      var c := env(Now(Llm(calls)));
      while !(c.enough && calls > 0)
        invariant c == env(Now(Llm(calls))) && From(v, Llm(calls))
        decreases patience + 1 - calls
      {
        assert Patient(Now(Llm(calls)).pc, env(Now(Llm(calls))), patience);
        Steps(cfg, role, env, v, Now(Llm(calls)));
        log := log + [LlmCalled(role.msg.Key())];
        calls := calls + 1;
        c := env(Now(Llm(calls)));
      }
      Steps(cfg, role, env, v, Now(Llm(calls)));
      return c.reply, c.payload;
    }

    /** Store the result, with the state check, as often as the retry loop allows. */
    method StoreResultWithRetry(e: Entry, ghost v: View) returns (r: Reply)
      requires role.Handler? && From(v, StoreResult(e, 1))
      modifies this`task
      ensures From(v, if r.Fine? then Deliver(EnsureRequestId, e, 1) else Raised(r.fault, false))
    {
      var attempt: nat := 1;
      while true
        invariant 1 <= attempt <= cfg.MaxAttempts() && From(v, StoreResult(e, attempt))
        decreases cfg.MaxAttempts() - attempt
      {
        var c := env(Now(StoreResult(e, attempt)));
        Steps(cfg, role, env, v, Now(StoreResult(e, attempt)));
        task := AfterStorePost(task, c);
        if c.reply != Failed(Retryable) {
          return c.reply;
        }
        var asked := env(Now(ConfirmStored(e, attempt)));
        Steps(cfg, role, env, v, Now(ConfirmStored(e, attempt)));
        if asked.reply.Fine? && task.stored {
          return Fine;
        }
        if asked.reply.Failed? && asked.reply != Failed(Retryable) {
          return asked.reply;
        }
        if attempt >= cfg.MaxAttempts() {
          return Failed(Retryable);
        }
        attempt := attempt + 1;
      }
    }

    /** `process_async` of either processor. */
    method ProcessMessage(patience: nat, ghost v: View) returns (r: Reply, delivering: bool)
      requires role.Handler? && From(v, Start) && forall w: View :: Patient(w.pc, env(w), patience)
      modifies this`slot, this`task, this`log
      ensures From(v, if r.Fine? then Settle(Ack(Processed)) else Raised(r.fault, delivering))
    {
      var c := env(Now(Start));
      Steps(cfg, role, env, v, Now(Start));
      if role.msg.taskType == Analysis && c.reply.Failed? {
        return c.reply, false;
      }
      var resumed;
      r, resumed, delivering := ResumeWithoutLlm(v);
      if r.Failed? || resumed {
        return r, delivering;
      }
      c := env(Now(Prepare));
      Steps(cfg, role, env, v, Now(Prepare));
      if c.reply.Failed? {
        return c.reply, false;
      }
      var payload;
      r, payload := RunLlm(patience, v);
      if r.Failed? {
        return r, false;
      }
      r, delivering := SpoolAndDeliver(payload, v);
    }

    /** The result goes to the spool first, then to the server, and only then is the task completed. */
    method SpoolAndDeliver(payload: Payload, ghost v: View) returns (r: Reply, delivering: bool)
      requires role.Handler? && From(v, EnqueueResult(payload))
      modifies this`slot, this`task, this`log
      ensures From(v, if r.Fine? then Settle(Ack(Processed)) else Raised(r.fault, delivering))
    {
      var e := FreshEntry(role.msg, payload);
      Steps(cfg, role, env, v, Now(EnqueueResult(payload)));
      r := EnqueuePendingDelivery(payload, EnqueueResult(payload), StoreResult(e, 1));
      if r.Fine? {
        r := StoreResultWithRetry(e, v);
      }
      delivering := r.Fine?;
      if r.Fine? {
        r := DeliverForHandler(e, v);
      }
    }

    // ----- The failure path -----

    /** Publish to the DLQ unless the ledger knows the message, and put it on record. */
    method PublishDlqOnce(ghost v: View) returns (why: AckReason)
      requires role.Handler? && From(v, DlqCheck)
      modifies this`inLedger, this`log
      ensures From(v, Settle(Ack(why)))
    {
      Steps(cfg, role, env, v, Now(DlqCheck));
      if inLedger {
        return LedgerHit;
      }
      var c := env(Now(DlqPublish));
      Steps(cfg, role, env, v, Now(DlqPublish));
      if c.reply.Failed? {
        log := log + [DlqUnconfirmed(role.msg.Ref())];
        return DlqFailed;
      }
      log := log + [DlqConfirmed(role.msg.Ref())];
      c := env(Now(LedgerWrite));
      Steps(cfg, role, env, v, Now(LedgerWrite));
      if c.reply.Failed? {
        log := log + [LedgerWriteFailed(role.msg.Ref())];
      }
      inLedger := inLedger || c.reply.Fine? || c.effect;
      why := DlqDone;
    }

    method FinalizeFailedMessage(cause: Cause, ghost v: View) returns (why: AckReason)
      requires role.Handler? && From(v, LedgerCheck(cause))
      modifies this`task, this`inLedger, this`log
      ensures From(v, Settle(Ack(why)))
    {
      Steps(cfg, role, env, v, Now(LedgerCheck(cause)));
      if inLedger {
        return LedgerHit;
      }
      var c := env(Now(TerminalCheck(cause)));
      Steps(cfg, role, env, v, Now(TerminalCheck(cause)));
      if c.reply.Fine? && task.Terminal() {
        return AlreadyTerminal;
      }
      c := env(Now(PostFailed(cause)));
      Steps(cfg, role, env, v, Now(PostFailed(cause)));
      task := AfterFailedPost(task, c);
      log := log + [FailPosted(role.msg, cause, c.reply.Fine? || c.effect)];
      why := PublishDlqOnce(v);
    }

    /** Either the message is to be republished, or the task has failed for good. */
    method RetryOrFail(f: Fault, delivering: bool, ghost v: View) returns (end: Pc)
      requires role.Handler? && From(v, Raised(f, delivering))
      modifies this`task, this`inLedger, this`log
      ensures From(v, end) && Done(role, end)
    {
      Steps(cfg, role, env, v, Now(Raised(f, delivering)));
      if f != NonRetryable && role.msg.retryCount + 1 <= cfg.MaxRetry(role.msg) {
        Steps(cfg, role, env, v, Now(PostRetry));
        return Republish;
      }
      var why := FinalizeFailedMessage(CauseOf(f, delivering), v);
      end := Settle(Ack(why));
    }

    // ----- The two kinds of actor -----

    /** A handler between its lease and its settlement takes the steps the protocol gives it, from the first to
        the last. */
    method HandleMessage(patience: nat) returns (end: Pc)
      requires role.Handler? && forall w: View :: Patient(w.pc, env(w), patience)
      modifies this`slot, this`task, this`inLedger, this`log
      ensures From(old(Now(Start)), end) && Done(role, end)
      ensures forall n: nat :: n >= Rank(cfg, patience, Start) ==> Walk(cfg, role, old(Now(Start)), env, n) == Now(end)
    {
      ghost var v := Now(Start);
      LeadsHere(cfg, role, env, v);
      var r, delivering := ProcessMessage(patience, v);
      if r.Fine? {
        end := Settle(Ack(Processed));
      } else {
        end := RetryOrFail(r.fault, delivering, v);
      }
      forall n: nat | n >= Rank(cfg, patience, Start) ensures Walk(cfg, role, v, env, n) == Now(end) {
        LeadsToTheEnd(cfg, patience, role, env, v, Now(end), n);
      }
    }

    /** So does a replay of the recovery scan; only an error that is not a refusal ends the scan. */
    method ReplayEntry(e: Entry) returns (abortScan: bool)
      requires role.Replay?
      modifies this`slot, this`task, this`log
      ensures From(old(Now(Deliver(EnsureRequestId, e, 1))), Releasing(abortScan))
    {
      ghost var v := Now(Deliver(EnsureRequestId, e, 1));
      LeadsHere(cfg, role, env, v);
      var o := DeliverPendingEntry(e, v);
      Steps(cfg, role, env, v, Now(Ended(o)));
      abortScan := o.Raising? && o.fault != NonRetryable;
    }
  }
}

/** The task-delivery protocol of the worker as a step system.

    One worker process takes copies of messages from the broker, guards every task id with the inflight
    registry and every task type with a bounded lease, runs the LLM, keeps the result in a disk spool, stores
    and completes it on the server and settles the message. A recovery scan replays spool entries beside the
    handlers. The program counters below sit where the source awaits or touches a file, so every interleaving
    of the event loop is a run of this system.

    What the environment decides (a reply, a failed write, a lost response) is a `Choice`; given the choices
    the worker's own code is a function, `LocalStep`. */
module Protocol {
  import opened Registry

  // ----- Messages, spool entries, server tasks -----

  /** Identities and payloads are opaque here: the protocol only compares and copies them. */
  type TaskId(==, !new)
  type MessageId(==, !new)
  type Payload(==, !new)

  datatype TaskKey = TaskKey(id: TaskId, kind: TaskType)

  datatype MessageRef = MessageRef(taskId: TaskId, messageId: MessageId)

  datatype Message = Message(taskId: TaskId, messageId: MessageId, taskType: TaskType, retryCount: int,
                             maxRetryCount: int)
  {
    function Key(): TaskKey { TaskKey(taskId, taskType) }

    function Ref(): MessageRef { MessageRef(taskId, messageId) }
  }

  /** A pending delivery. Its delivery kind belongs to `key.kind` one to one; `taskType` is the optional
      field that decides whether the task's status can be asked for. */
  datatype Entry = Entry(key: TaskKey, taskType: Option<TaskType>, hasRequestId: bool, payload: Payload,
                         attemptCount: nat)

  datatype Status = Open | Success | Failure

  datatype ServerTask = ServerTask(status: Status, stored: bool)
  {
    predicate Terminal() { status != Open }

    /** What the server may turn this task into: terminal statuses absorb, a stored result stays. */
    predicate MayBecome(later: ServerTask) {
      && (Terminal() ==> later.status == status)
      && (stored ==> later.stored)
    }
  }

  // ----- What the environment answers -----

  datatype Fault = Retryable | NonRetryable | Unexpected

  datatype Reply = Fine | Failed(fault: Fault)

  /** `effect` says whether a failed request or write took effect all the same; `enough` ends the LLM phase;
      `payload` is what the LLM, or the server's stored result, contributes. */
  datatype Choice = Choice(reply: Reply, effect: bool, enough: bool, payload: Payload)

  // ----- Program counters -----

  datatype DeliverAt =
    | EnsureRequestId
    | AskTerminal
    | EnsureStored
    | StoreForEntry
    | ConfirmStoredForEntry
    | Complete
    | AfterRetryable
    | AfterNonRetryable
    | AttemptFailed
    | DropDelivered
    | DropRejected

  datatype Outcome = Delivered | Deferred | Raising(fault: Fault)

  /** Why a handler gives a task up. */
  datatype Cause = OutOfRetries | RefusedOutside | RefusedDelivery

  datatype AckReason = Processed | Republished | LedgerHit | AlreadyTerminal | DlqDone | DlqFailed

  datatype Settlement = Ack(why: AckReason) | Requeue

  datatype Pc =
    | Received
    | Start | AskStatus | AskSpool | AskStored | EnqueueStored(payload: Payload)
    | Prepare | Llm(calls: nat) | EnqueueResult(payload: Payload)
    | StoreResult(entry: Entry, attempt: nat) | ConfirmStored(entry: Entry, attempt: nat)
    | Deliver(at: DeliverAt, entry: Entry, attempt: nat)
    | Ended(outcome: Outcome)
    | Raised(fault: Fault, delivering: bool)
    | LedgerCheck(why: Cause) | TerminalCheck(why: Cause) | PostFailed(why: Cause) | DlqCheck | DlqPublish | LedgerWrite
    | PostRetry | Republish
    | Settle(how: Settlement)
    | Releasing(abortScan: bool)

  datatype Role = Handler(copy: nat, msg: Message) | Replay(target: TaskKey)
  {
    function Key(): TaskKey { if Handler? then msg.Key() else target }
  }

  datatype Actor = Actor(role: Role, pc: Pc, registered: bool, leased: bool)
  {
    function Id(): TaskId { role.Key().id }

    /** A handler that still owes the broker an ack or a nack. */
    predicate Unsettled() { role.Handler? && !pc.Releasing? }
  }

  // ----- History -----

  datatype Event =
    | LlmCalled(key: TaskKey)
    | Spooled(key: TaskKey, payload: Payload)
    | Rejected(key: TaskKey)
    | FoundOpen(key: TaskKey)
    | CompletionSent(key: TaskKey, resultStored: bool, typed: bool)
    | FailPosted(msg: Message, cause: Cause, effective: bool)
    | DlqConfirmed(ref: MessageRef)
    | DlqUnconfirmed(ref: MessageRef)
    | LedgerWriteFailed(ref: MessageRef)
    | Taken(delivery: nat)
    | Acked(delivery: nat, msg: Message, why: AckReason)
    | Discarded(delivery: nat)
    | Requeued(delivery: nat)
    | Crashed(deliveries: set<nat>, unrecorded: set<MessageRef>)

  // ----- Configuration -----

  datatype Config = Config(apiAttempts: int, analysisMaxRetry: int, jobPostingMaxRetry: int, limits: Limits)
  {
    function MaxAttempts(): nat { if apiAttempts < 1 then 1 else apiAttempts }

    /** A message's own maximum, unless it is zero. */
    function MaxRetry(m: Message): int {
      if m.maxRetryCount != 0 then m.maxRetryCount
      else if m.taskType == Analysis then analysisMaxRetry
      else jobPostingMaxRetry
    }

    predicate Exhausted(m: Message) { m.retryCount + 1 > MaxRetry(m) }

    function Retried(m: Message): Message {
      m.(retryCount := m.retryCount + 1, maxRetryCount := MaxRetry(m))
    }
  }

  // ----- The worker's code, as seen by one actor -----

  /** The part of the state an actor at work reads and writes: its program counter, its task's spool slot and
      server record, whether its message is in the ledger, and the history. */
  datatype View = View(pc: Pc, slot: Option<Entry>, inLedger: bool, task: ServerTask, log: seq<Event>)
  {
    function Goto(next: Pc): View { this.(pc := next) }

    function Logged(e: Event): View { this.(log := log + [e]) }

    /** Writing an entry: temporary file, then replace, so a failed write leaves the old entry or the new. */
    function Written(e: Entry, c: Choice): View {
      if c.reply.Fine? || c.effect then this.(slot := Some(e)) else this
    }
  }

  function FreshEntry(m: Message, payload: Payload): Entry {
    Entry(m.Key(), Some(m.taskType), true, payload, 0)
  }

  /** `enqueue_pending_delivery`: any failure is raised as retryable. */
  function Enqueue(v: View, m: Message, payload: Payload, next: Pc, c: Choice): View {
    var v' := v.Written(FreshEntry(m, payload), c);
    var v'' := if c.reply.Fine? || c.effect then v'.Logged(Spooled(m.Key(), payload)) else v';
    v''.Goto(if c.reply.Fine? then next else Raised(Retryable, false))
  }

  /** Posting a result: a lost response may have stored it, a refusal has not. */
  function AfterStorePost(task: ServerTask, c: Choice): ServerTask {
    if c.reply.Fine? || (c.effect && c.reply.fault != NonRetryable) then task.(stored := true) else task
  }

  /** Completing or finalizing: an accepted request makes the task successful. */
  function AfterCompletePost(task: ServerTask, c: Choice): ServerTask {
    if c.reply.Fine? || (c.effect && c.reply.fault != NonRetryable && task.status == Open)
    then task.(status := Success) else task
  }

  function AfterFailedPost(task: ServerTask, c: Choice): ServerTask {
    if (c.reply.Fine? || c.effect) && task.status == Open then task.(status := Failure) else task
  }

  /** A fault inside one delivery attempt: retry it, drop the entry and raise, or let it escape. */
  function AttemptFault(v: View, f: Fault): View
    requires v.pc.Deliver?
  {
    match f
    case Retryable => v.Goto(v.pc.(at := AttemptFailed))
    case NonRetryable => v.Goto(v.pc.(at := DropRejected)).Logged(Rejected(v.pc.entry.key))
    case Unexpected => v.Goto(Ended(Raising(Unexpected)))
  }

  /** `deliver_pending_entry_async` with the retry loop and the state checks around each attempt. */
  function DeliverStep(cfg: Config, v: View, c: Choice): View
    requires v.pc.Deliver?
  {
    var e := v.pc.entry;
    match v.pc.at
    case EnsureRequestId =>
      if e.hasRequestId then v.Goto(v.pc.(at := AskTerminal))
      else
        var e' := e.(hasRequestId := true);
        v.Written(e', c).Goto(if c.reply.Fine? then Deliver(AskTerminal, e', v.pc.attempt)
                              else Ended(Raising(Unexpected)))
    case AskTerminal =>
      if e.taskType.None? then v.Goto(v.pc.(at := EnsureStored))
      else if c.reply.Failed? then AttemptFault(v, c.reply.fault)
      else (match v.task.status
            case Success => v.Goto(v.pc.(at := DropDelivered))
            case Failure => AttemptFault(v, NonRetryable)
            case Open => v.Goto(v.pc.(at := EnsureStored)).Logged(FoundOpen(e.key)))
    case EnsureStored =>
      if c.reply.Failed? then AttemptFault(v, c.reply.fault)
      else v.Goto(v.pc.(at := if v.task.stored then Complete else StoreForEntry))
    case StoreForEntry =>
      var v' := v.(task := AfterStorePost(v.task, c));
      if c.reply.Fine? then v'.Goto(v.pc.(at := Complete))
      else if c.reply.fault == Retryable then v'.Goto(v.pc.(at := ConfirmStoredForEntry))
      else AttemptFault(v', c.reply.fault)
    case ConfirmStoredForEntry =>
      if c.reply.Failed? then AttemptFault(v, c.reply.fault)
      else if v.task.stored then v.Goto(v.pc.(at := Complete))
      else AttemptFault(v, Retryable)
    case Complete =>
      var v' := v.(task := AfterCompletePost(v.task, c)).Logged(CompletionSent(e.key, v.task.stored, e.taskType.Some?));
      (match c.reply
       case Fine => v'.Goto(v.pc.(at := DropDelivered))
       case Failed(Retryable) => v'.Goto(v.pc.(at := AfterRetryable))
       case Failed(NonRetryable) => v'.Goto(v.pc.(at := AfterNonRetryable))
       case Failed(Unexpected) => v'.Goto(Ended(Raising(Unexpected))))
    case AfterRetryable =>
      if e.taskType.None? then AttemptFault(v, Retryable)
      else if c.reply.Failed? then AttemptFault(v, c.reply.fault)
      else (match v.task.status
            case Success => v.Goto(v.pc.(at := DropDelivered))
            case Failure => AttemptFault(v, NonRetryable)
            case Open => AttemptFault(v.Logged(FoundOpen(e.key)), Retryable))
    case AfterNonRetryable =>
      if e.taskType.None? then AttemptFault(v, NonRetryable)
      else if c.reply.Failed? then AttemptFault(v, c.reply.fault)
      else if v.task.status == Success then v.Goto(v.pc.(at := DropDelivered))
      else AttemptFault(v, NonRetryable)
    case AttemptFailed =>
      var e' := e.(attemptCount := v.pc.attempt);
      v.Written(e', c).Goto(
        if c.reply.Failed? then Ended(Raising(Unexpected))
        else if v.pc.attempt < cfg.MaxAttempts() then Deliver(AskTerminal, e', v.pc.attempt + 1)
        else Ended(Deferred))
    case DropDelivered =>
      var v' := if c.reply.Fine? || c.effect then v.(slot := None) else v;
      v'.Goto(Ended(if c.reply.Fine? then Delivered else Raising(Unexpected)))
    case DropRejected =>
      var v' := if c.reply.Fine? || c.effect then v.(slot := None) else v;
      v'.Goto(Ended(Raising(if c.reply.Fine? then NonRetryable else Unexpected)))
  }

  predicate ProcessorPc(pc: Pc) {
    pc.Start? || pc.AskStatus? || pc.AskSpool? || pc.AskStored? || pc.EnqueueStored? || pc.Prepare? || pc.Llm?
    || pc.EnqueueResult? || pc.StoreResult? || pc.ConfirmStored?
  }

  /** The processors' `process_async`: resume without the LLM if possible, else run it, spool, store. */
  function ProcessStep(cfg: Config, m: Message, v: View, c: Choice): View
    requires ProcessorPc(v.pc)
  {
    match v.pc
    case Start =>
      // An analysis message that waited too long is refused; a bad timestamp is an unexpected error there.
      if m.taskType == Analysis && c.reply.Failed? then v.Goto(Raised(c.reply.fault, false)) else v.Goto(AskStatus)
    case AskStatus =>
      if c.reply.Failed? then v.Goto(Raised(c.reply.fault, false))
      else v.Goto(if v.task.Terminal() then Settle(Ack(Processed)) else AskSpool)
    case AskSpool =>
      v.Goto(if v.slot.Some? then Deliver(EnsureRequestId, v.slot.value, 1) else AskStored)
    case AskStored =>
      if c.reply.Failed? then v.Goto(Raised(c.reply.fault, false))
      else v.Goto(if v.task.stored then EnqueueStored(c.payload) else Prepare)
    case EnqueueStored(payload) =>
      Enqueue(v, m, payload, Deliver(EnsureRequestId, FreshEntry(m, payload), 1), c)
    case Prepare =>
      v.Goto(if c.reply.Fine? then Llm(0) else Raised(c.reply.fault, false))
    case Llm(calls) =>
      if c.enough && calls > 0 then
        v.Goto(if c.reply.Fine? then EnqueueResult(c.payload) else Raised(c.reply.fault, false))
      else v.Goto(Llm(calls + 1)).Logged(LlmCalled(m.Key()))
    case EnqueueResult(payload) =>
      Enqueue(v, m, payload, StoreResult(FreshEntry(m, payload), 1), c)
    case StoreResult(e, n) =>
      var v' := v.(task := AfterStorePost(v.task, c));
      if c.reply.Fine? then v'.Goto(Deliver(EnsureRequestId, e, 1))
      else if c.reply.fault == Retryable then v'.Goto(ConfirmStored(e, n))
      else v'.Goto(Raised(c.reply.fault, false))
    case ConfirmStored(e, n) =>
      if c.reply.Fine? && v.task.stored then v.Goto(Deliver(EnsureRequestId, e, 1))
      else if c.reply.Fine? || c.reply.fault == Retryable then
        v.Goto(if n < cfg.MaxAttempts() then StoreResult(e, n + 1) else Raised(Retryable, false))
      else v.Goto(Raised(c.reply.fault, false))
  }

  predicate FailurePc(pc: Pc) {
    pc.Raised? || pc.LedgerCheck? || pc.TerminalCheck? || pc.PostFailed? || pc.DlqCheck? || pc.DlqPublish?
    || pc.LedgerWrite? || pc.PostRetry?
  }

  /** `_retry_or_fail_async`, `_handle_non_retryable_async`, `_finalize_failed_message_async` and
      `_publish_dlq_once_async`, up to the republish. */
  function FailureStep(cfg: Config, m: Message, v: View, c: Choice): View
    requires FailurePc(v.pc)
  {
    match v.pc
    case Raised(f, delivering) =>
      v.Goto(if f == NonRetryable then LedgerCheck(if delivering then RefusedDelivery else RefusedOutside)
             else if cfg.Exhausted(m) then LedgerCheck(OutOfRetries)
             else PostRetry)
    case LedgerCheck(why) =>
      v.Goto(if v.inLedger then Settle(Ack(LedgerHit)) else TerminalCheck(why))
    case TerminalCheck(why) =>
      // A status that cannot be read counts as not terminal.
      v.Goto(if c.reply.Fine? && v.task.Terminal() then Settle(Ack(AlreadyTerminal)) else PostFailed(why))
    case PostFailed(why) =>
      // A failure that cannot be posted is logged and passed over.
      v.(task := AfterFailedPost(v.task, c)).Logged(FailPosted(m, why, c.reply.Fine? || c.effect)).Goto(DlqCheck)
    case DlqCheck =>
      v.Goto(if v.inLedger then Settle(Ack(LedgerHit)) else DlqPublish)
    case DlqPublish =>
      if c.reply.Fine? then v.Goto(LedgerWrite).Logged(DlqConfirmed(m.Ref()))
      else v.Goto(Settle(Ack(DlqFailed))).Logged(DlqUnconfirmed(m.Ref()))
    case LedgerWrite =>
      var v' := if c.reply.Fine? then v else v.Logged(LedgerWriteFailed(m.Ref()));
      v'.(inLedger := v.inLedger || c.reply.Fine? || c.effect).Goto(Settle(Ack(DlqDone)))
    case PostRetry =>
      v.Goto(Republish)
  }

  /** Where a finished delivery sends its caller: the processor, or the scan. */
  function AfterDelivery(role: Role, o: Outcome): Pc {
    if role.Replay? then Releasing(o.Raising? && o.fault != NonRetryable)
    else if o.Raising? then Raised(o.fault, true)
    else Settle(Ack(Processed))
  }

  predicate LocalPc(role: Role, pc: Pc) {
    pc.Deliver? || pc.Ended? || (role.Handler? && (ProcessorPc(pc) || FailurePc(pc)))
  }

  function LocalStep(cfg: Config, role: Role, v: View, c: Choice): View
    requires LocalPc(role, v.pc)
  {
    if v.pc.Deliver? then DeliverStep(cfg, v, c)
    else if v.pc.Ended? then v.Goto(AfterDelivery(role, v.pc.outcome))
    else if ProcessorPc(v.pc) then ProcessStep(cfg, role.msg, v, c)
    else FailureStep(cfg, role.msg, v, c)
  }

  /** The server never accepts the completion of a failed or cancelled task. */
  predicate ServerAllows(v: View, c: Choice) {
    v.pc.Deliver? && v.pc.at == Complete && c.reply.Fine? ==> v.task.status != Failure
  }

  // ----- The whole system -----

  datatype Packet = Garbage | Task(msg: Message)

  /** A copy in the broker. `superseded` marks a delivered copy whose republished successor was confirmed
      while its own ack is still to come. */
  datatype Copy = Copy(packet: Packet, holder: Option<nat>, superseded: bool)

  /** The recovery scan: what is left of the snapshot it listed, and whether a replay is under way. */
  datatype Scan = Idle | Scanning(rest: seq<Entry>, replaying: bool)

  datatype State = State(
    copies: map<nat, Copy>,
    actors: map<nat, Actor>,
    inflight: set<TaskId>,
    counts: Counts,
    scan: Scan,
    spool: map<TaskKey, Entry>,
    ledger: set<MessageRef>,
    server: map<TaskKey, ServerTask>,
    log: seq<Event>,
    next: nat)
  {
    function Task(k: TaskKey): ServerTask {
      if k in server then server[k] else ServerTask(Open, false)
    }

    function Slot(k: TaskKey): Option<Entry> {
      if k in spool then Some(spool[k]) else None
    }

    function Logged(e: Event): State { this.(log := log + [e]) }

    /** What actor `a` sees of the state. */
    function See(a: nat): View
      requires a in actors
    {
      var k := actors[a].role.Key();
      View(actors[a].pc, Slot(k), actors[a].role.Handler? && actors[a].role.msg.Ref() in ledger, Task(k), log)
    }

    /** The state after actor `a` has turned what it sees into `v`. */
    function Put(a: nat, v: View): State
      requires a in actors
    {
      var role := actors[a].role;
      var k := role.Key();
      this.(actors := actors[a := actors[a].(pc := v.pc)],
            spool := if v.slot.Some? then spool[k := v.slot.value] else spool - {k},
            ledger := if role.Handler? && v.inLedger then ledger + {role.msg.Ref()} else ledger,
            server := server[k := v.task],
            log := v.log)
    }
  }

  datatype Step =
    | Produce(packet: Packet)
    | Receive(copy: nat)
    | Register(actor: nat)
    | Local(actor: nat, choice: Choice)
    | RepublishCopy(actor: nat, confirmed: bool, effect: bool)
    | SettleCopy(actor: nat)
    | Release(actor: nat)
    | ScanStart(entries: seq<Entry>)
    | ScanNext
    | ScanStop
    | Crash
    | ServerMoves(later: map<TaskKey, ServerTask>)

  ghost predicate Lists(entries: seq<Entry>, spool: map<TaskKey, Entry>) {
    && (forall i :: 0 <= i < |entries| ==> entries[i].key in spool && spool[entries[i].key] == entries[i])
    && (forall i, j :: 0 <= i < j < |entries| ==> entries[i].key != entries[j].key)
    && (forall k :: k in spool ==> spool[k] in entries)
  }

  ghost predicate Enabled(cfg: Config, s: State, step: Step) {
    match step
    case Produce(_) => true
    case Receive(c) => c in s.copies && s.copies[c].holder.None?
    case Register(a) => a in s.actors && s.actors[a].pc.Received?
    case Local(a, c) =>
      && a in s.actors
      && LocalPc(s.actors[a].role, s.actors[a].pc)
      && ServerAllows(s.See(a), c)
    case RepublishCopy(a, _, _) => a in s.actors && s.actors[a].role.Handler? && s.actors[a].pc.Republish?
    case SettleCopy(a) =>
      a in s.actors && s.actors[a].role.Handler? && s.actors[a].pc.Settle? && s.actors[a].role.copy in s.copies
    case Release(a) => a in s.actors && s.actors[a].pc.Releasing?
    case ScanStart(es) => s.scan.Idle? && Lists(es, s.spool)
    case ScanNext => s.scan.Scanning? && !s.scan.replaying && s.scan.rest != []
    case ScanStop => s.scan.Scanning? && !s.scan.replaying
    case Crash => true
    case ServerMoves(later) => forall k :: s.Task(k).MayBecome(s.(server := later).Task(k))
  }

  function ReceiveStep(s: State, c: nat): State
    requires c in s.copies
  {
    match s.copies[c].packet
    case Garbage => s.(copies := s.copies - {c}, next := s.next + 1).Logged(Discarded(s.next))
    case Task(m) =>
      s.(copies := s.copies[c := s.copies[c].(holder := Some(s.next))],
         actors := s.actors[s.next := Actor(Handler(c, m), Received, false, false)],
         next := s.next + 1).Logged(Taken(s.next))
  }

  /** Registration and lease, with no await between: a duplicate is requeued, and so is a message over its
      type's limit, which keeps its registration until after the nack. */
  function RegisterStep(cfg: Config, s: State, a: nat): State
    requires a in s.actors
  {
    var x := s.actors[a];
    var t := x.role.Key().kind;
    if x.Id() in s.inflight then s.(actors := s.actors[a := x.(pc := Settle(Requeue))])
    else if !CanAcquire(cfg.limits, s.counts, t) then
      s.(inflight := s.inflight + {x.Id()},
         actors := s.actors[a := x.(pc := Settle(Requeue), registered := true)])
    else
      s.(inflight := s.inflight + {x.Id()},
         counts := Acquired(s.counts, t),
         actors := s.actors[a := x.(pc := Start, registered := true, leased := true)])
  }

  function RepublishStep(cfg: Config, s: State, a: nat, confirmed: bool, effect: bool): State
    requires a in s.actors && s.actors[a].role.Handler?
  {
    var x := s.actors[a];
    var copies := if confirmed || effect
                  then s.copies[s.next := Copy(Task(cfg.Retried(x.role.msg)), None, false)] else s.copies;
    var copies' := if confirmed && x.role.copy in copies
                   then copies[x.role.copy := copies[x.role.copy].(superseded := true)] else copies;
    s.(copies := copies', next := s.next + 1,
       actors := s.actors[a := x.(pc := Settle(if confirmed then Ack(Republished) else Requeue))])
  }

  function SettleStep(s: State, a: nat): State
    requires a in s.actors && s.actors[a].role.Handler? && s.actors[a].pc.Settle? && s.actors[a].role.copy in s.copies
  {
    var x := s.actors[a];
    var s' := s.(actors := s.actors[a := x.(pc := Releasing(false))]);
    match x.pc.how
    case Ack(why) => s'.(copies := s.copies - {x.role.copy}).Logged(Acked(a, x.role.msg, why))
    case Requeue =>
      s'.(copies := s.copies[x.role.copy := s.copies[x.role.copy].(holder := None)]).Logged(Requeued(a))
  }

  function ReleaseStep(s: State, a: nat): State
    requires a in s.actors && s.actors[a].pc.Releasing?
  {
    var x := s.actors[a];
    s.(actors := s.actors - {a},
       inflight := if x.registered then s.inflight - {x.Id()} else s.inflight,
       counts := if x.leased then Released(s.counts, x.role.Key().kind) else s.counts,
       scan := if x.role.Handler? || s.scan.Idle? then s.scan
               else if x.pc.abortScan then Idle
               else s.scan.(replaying := false))
  }

  function ScanNextStep(s: State): State
    requires s.scan.Scanning? && s.scan.rest != []
  {
    var e := s.scan.rest[0];
    var scan := s.scan.(rest := s.scan.rest[1..]);
    if e.key.id in s.inflight then s.(scan := scan)
    else
      s.(scan := scan.(replaying := true),
         inflight := s.inflight + {e.key.id},
         actors := s.actors[s.next := Actor(Replay(e.key), Deliver(EnsureRequestId, e, 1), true, false)],
         next := s.next + 1)
  }

  /** The process dies: every actor, registration and lease is gone and unsettled copies return to the queue. */
  function CrashStep(s: State): State {
    s.(actors := map[], inflight := {}, counts := map[], scan := Idle,
       copies := map c | c in s.copies :: s.copies[c].(holder := None, superseded := false))
     .Logged(Crashed(set a | a in s.actors && s.actors[a].Unsettled(),
                     set a | a in s.actors && s.actors[a].role.Handler? && s.actors[a].pc.LedgerWrite?
                       :: s.actors[a].role.msg.Ref()))
  }

  ghost function Apply(cfg: Config, s: State, step: Step): State
    requires Enabled(cfg, s, step)
  {
    match step
    case Produce(p) => s.(copies := s.copies[s.next := Copy(p, None, false)], next := s.next + 1)
    case Receive(c) => ReceiveStep(s, c)
    case Register(a) => RegisterStep(cfg, s, a)
    case Local(a, c) => s.Put(a, LocalStep(cfg, s.actors[a].role, s.See(a), c))
    case RepublishCopy(a, confirmed, effect) => RepublishStep(cfg, s, a, confirmed, effect)
    case SettleCopy(a) => SettleStep(s, a)
    case Release(a) => ReleaseStep(s, a)
    case ScanStart(es) => s.(scan := Scanning(es, false))
    case ScanNext => ScanNextStep(s)
    case ScanStop => s.(scan := Idle)
    case Crash => CrashStep(s)
    case ServerMoves(later) => s.(server := later)
  }

  /** A worker starting on whatever an earlier process left on disk and on the server. The history opens with
      the results found in the spool. */
  ghost predicate Init(s: State) {
    && s.copies == map[] && s.actors == map[] && s.inflight == {} && s.counts == map[] && s.scan == Idle
    && (forall k :: k in s.spool ==>
          && s.spool[k].key == k
          && (s.spool[k].taskType == None || s.spool[k].taskType == Some(k.kind))
          && Spooled(k, s.spool[k].payload) in s.log)
    && (forall i :: 0 <= i < |s.log| ==>
          s.log[i].Spooled? && s.log[i].key in s.spool && s.spool[s.log[i].key].payload == s.log[i].payload)
    && (forall i, j :: 0 <= i < j < |s.log| ==> s.log[i] != s.log[j])
  }

  ghost predicate IsRun(cfg: Config, run: seq<State>, steps: seq<Step>) {
    && |run| == |steps| + 1
    && Init(run[0])
    && forall i :: 0 <= i < |steps| ==> Enabled(cfg, run[i], steps[i]) && run[i + 1] == Apply(cfg, run[i], steps[i])
  }
}

/** What holds between two steps of one actor on its own task. */
module LocalInvariant {
  import opened Registry
  import opened Protocol

  ghost predicate EverSpooled(log: seq<Event>, k: TaskKey) {
    exists p :: Spooled(k, p) in log
  }

  /** An entry that was enqueued for its task, and whose task type, if any, belongs to its delivery kind. */
  ghost predicate Authentic(log: seq<Event>, e: Entry) {
    && Spooled(e.key, e.payload) in log
    && (e.taskType == None || e.taskType == Some(e.key.kind))
  }

  /** A result was spooled for the task, and no delivery of the task was rejected since the last one was. */
  predicate Owed(log: seq<Event>, k: TaskKey) {
    log != [] &&
    var last := log[|log| - 1];
    (last.Spooled? && last.key == k) || (last != Rejected(k) && Owed(log[..|log| - 1], k))
  }

  /** Since the last completion sent for the task its status was read, and was open. */
  predicate FoundSince(log: seq<Event>, k: TaskKey) {
    log != [] &&
    var last := log[|log| - 1];
    last == FoundOpen(k) || (!(last.CompletionSent? && last.key == k) && FoundSince(log[..|log| - 1], k))
  }

  /** A failure that could not be posted for this message. */
  ghost predicate FailLost(log: seq<Event>, m: Message) {
    exists why :: FailPosted(m, why, false) in log
  }

  /** While a result is owed its entry is there, or the task is terminal. */
  predicate Durable(log: seq<Event>, k: TaskKey, slot: Option<Entry>, task: ServerTask) {
    Owed(log, k) ==> slot.Some? || task.Terminal()
  }

  /** Why an acknowledged message may be forgotten. */
  ghost predicate Accounted(log: seq<Event>, m: Message, inLedger: bool, task: ServerTask, why: AckReason) {
    match why
    case Processed => task.Terminal() || EverSpooled(log, m.Key())
    case Republished => true
    case LedgerHit => inLedger
    case AlreadyTerminal => task.Terminal()
    case DlqDone => DlqConfirmed(m.Ref()) in log && (task.Terminal() || FailLost(log, m))
    case DlqFailed => DlqUnconfirmed(m.Ref()) in log && (task.Terminal() || FailLost(log, m))
  }

  /** Between the status check of an attempt and its request. */
  predicate PastCheck(at: DeliverAt) {
    at == EnsureStored || at == StoreForEntry || at == ConfirmStoredForEntry || at == Complete
  }

  ghost predicate PcInv(role: Role, v: View) {
    var k := role.Key();
    match v.pc
    case AskSpool => Owed(v.log, k) ==> v.slot.Some?
    case AskStored => !Owed(v.log, k)
    case EnqueueStored(_) => !Owed(v.log, k)
    case Prepare => !Owed(v.log, k)
    case Llm(_) => !Owed(v.log, k)
    case EnqueueResult(_) => !Owed(v.log, k)
    case StoreResult(e, _) => e.key == k && Authentic(v.log, e)
    case ConfirmStored(e, _) => e.key == k && Authentic(v.log, e)
    case Deliver(at, e, _) =>
      && e.key == k && Authentic(v.log, e)
      && (at == Complete ==> v.task.stored)
      && (PastCheck(at) && e.taskType.Some? ==> FoundSince(v.log, k))
      && (at == DropDelivered ==> v.task.status == Success)
      && (at == DropRejected ==> !Owed(v.log, k))
    case Ended(o) => EverSpooled(v.log, k) && (o == Raising(NonRetryable) ==> !Owed(v.log, k))
    case Raised(f, delivering) => f == NonRetryable && delivering ==> !Owed(v.log, k)
    case LedgerCheck(why) => why == RefusedDelivery ==> !Owed(v.log, k)
    case TerminalCheck(why) => why == RefusedDelivery ==> !Owed(v.log, k)
    case PostFailed(why) => why == RefusedDelivery ==> !Owed(v.log, k)
    case DlqCheck => role.Handler? && (v.task.Terminal() || FailLost(v.log, role.msg))
    case DlqPublish => role.Handler? && !v.inLedger && (v.task.Terminal() || FailLost(v.log, role.msg))
    case LedgerWrite =>
      && role.Handler? && !v.inLedger && DlqConfirmed(role.msg.Ref()) in v.log
      && (v.task.Terminal() || FailLost(v.log, role.msg))
    case Settle(Ack(why)) => role.Handler? && Accounted(v.log, role.msg, v.inLedger, v.task, why)
    case _ => true
  }

  ghost predicate SlotInv(k: TaskKey, slot: Option<Entry>, log: seq<Event>) {
    slot.Some? ==> slot.value.key == k && Authentic(log, slot.value)
  }

  ghost predicate LocalInv(role: Role, v: View) {
    && SlotInv(role.Key(), v.slot, v.log)
    && Durable(v.log, role.Key(), v.slot, v.task)
    && PcInv(role, v)
  }

  /** What an actor may add to the history. */
  ghost predicate EventOk(role: Role, v: View, e: Event) {
    match e
    case LlmCalled(k) => k == role.Key() && !Owed(v.log, k)
    case Spooled(k, _) => k == role.Key() && !Owed(v.log, k)
    case Rejected(k) => k == role.Key()
    case FoundOpen(k) => k == role.Key()
    case CompletionSent(k, stored, typed) =>
      k == role.Key() && stored && v.task.stored && (typed ==> FoundSince(v.log, k))
    case FailPosted(m, why, _) =>
      && role.Handler? && m == role.msg && v.pc == PostFailed(why)
      && (why == RefusedDelivery ==> !Owed(v.log, m.Key()))
    case DlqConfirmed(r) => role.Handler? && r == role.msg.Ref() && v.pc.DlqPublish?
    case DlqUnconfirmed(r) => role.Handler? && r == role.msg.Ref()
    case LedgerWriteFailed(r) => role.Handler? && r == role.msg.Ref() && v.pc.LedgerWrite?
    case _ => false
  }

  /** One local step: the history grows by at most one permitted event, the server and the ledger only
      move forward. */
  ghost predicate Moves(role: Role, v: View, w: View) {
    && (w.log == v.log
        || (|w.log| == |v.log| + 1 && w.log == v.log + [w.log[|v.log|]] && EventOk(role, v, w.log[|v.log|])))
    && v.task.MayBecome(w.task)
    && (v.inLedger ==> w.inLedger)
    && (w.inLedger && !v.inLedger ==> v.pc.LedgerWrite?)
  }

  lemma SpooledAfter(log: seq<Event>, e: Event, k: TaskKey)
    ensures EverSpooled(log + [e], k) <==> EverSpooled(log, k) || (e.Spooled? && e.key == k)
    ensures Owed(log + [e], k) <==> (e.Spooled? && e.key == k) || (Owed(log, k) && e != Rejected(k))
    ensures FoundSince(log + [e], k) <==>
      e == FoundOpen(k) || (FoundSince(log, k) && !(e.CompletionSent? && e.key == k))
  {
    assert (log + [e])[..|log|] == log;
    if EverSpooled(log, k) {
      var p :| Spooled(k, p) in log;
      assert Spooled(k, p) in log + [e];
    }
    if e.Spooled? && e.key == k {
      assert Spooled(k, e.payload) in log + [e];
    }
  }

  lemma {:induction false} OwedIsSpooled(log: seq<Event>, k: TaskKey)
    requires Owed(log, k)
    ensures EverSpooled(log, k)
  {
    var n := |log| - 1;
    if log[n].Spooled? && log[n].key == k {
      assert Spooled(k, log[n].payload) in log;
    } else {
      OwedIsSpooled(log[..n], k);
      var p :| Spooled(k, p) in log[..n];
      assert Spooled(k, p) in log;
    }
  }

  lemma NothingOwed(log: seq<Event>, k: TaskKey)
    requires !EverSpooled(log, k)
    ensures !Owed(log, k)
  {
    if Owed(log, k) {
      OwedIsSpooled(log, k);
    }
  }

  /** What is spooled stays owed until a delivery of its task is rejected: if it is owed no longer, one was. */
  lemma {:induction false} RejectedSince(log: seq<Event>, i: nat, k: TaskKey) returns (l: nat)
    requires i < |log| && log[i].Spooled? && log[i].key == k && !Owed(log, k)
    ensures i < l < |log| && log[l] == Rejected(k)
  {
    var n := |log| - 1;
    if log[n] == Rejected(k) {
      l := n;
    } else {
      assert log[..n][i] == log[i];
      l := RejectedSince(log[..n], i, k);
      assert log[..n][l] == log[l];
    }
  }

  lemma {:induction false} FoundBetween(log: seq<Event>, i: nat, k: TaskKey) returns (l: nat)
    requires i < |log| && log[i].CompletionSent? && log[i].key == k && FoundSince(log, k)
    ensures i < l < |log| && log[l] == FoundOpen(k)
  {
    var n := |log| - 1;
    if log[n] == FoundOpen(k) {
      l := n;
    } else {
      assert log[..n][i] == log[i];
      l := FoundBetween(log[..n], i, k);
      assert log[..n][l] == log[l];
    }
  }

  lemma AuthenticIsSpooled(log: seq<Event>, e: Entry)
    requires Authentic(log, e)
    ensures EverSpooled(log, e.key)
  {}

  predicate Asking(at: DeliverAt) {
    at == AskTerminal || at == EnsureStored || at == ConfirmStoredForEntry || at == AfterRetryable
    || at == AfterNonRetryable
  }

  lemma DeliverStays(cfg: Config, v: View, c: Choice)
    requires v.pc.Deliver?
    ensures var pc := DeliverStep(cfg, v, c).pc; pc.Deliver? || pc.Ended?
  {}

  /** An event that neither spools nor rejects leaves the slot's standing as it is. */
  lemma StandingKept(k: TaskKey, slot: Option<Entry>, log: seq<Event>, task: ServerTask, e: Event)
    requires SlotInv(k, slot, log) && Durable(log, k, slot, task) && !e.Spooled? && !e.Rejected?
    ensures SlotInv(k, slot, log + [e]) && Durable(log + [e], k, slot, task)
  {
    SpooledAfter(log, e, k);
  }

  lemma RejectionKeeps(role: Role, v: View)
    requires v.pc.Deliver? && LocalInv(role, v)
    ensures LocalInv(role, AttemptFault(v, NonRetryable)) && Moves(role, v, AttemptFault(v, NonRetryable))
  {
    SpooledAfter(v.log, Rejected(role.Key()), role.Key());
  }

  lemma FaultKeeps(role: Role, v: View, f: Fault)
    requires v.pc.Deliver? && LocalInv(role, v)
    ensures LocalInv(role, AttemptFault(v, f)) && Moves(role, v, AttemptFault(v, f))
  {
    if f == NonRetryable {
      RejectionKeeps(role, v);
    } else {
      AuthenticIsSpooled(v.log, v.pc.entry);
    }
  }

  /** Reading an open status. */
  lemma FoundOpenKeeps(cfg: Config, role: Role, v: View, c: Choice)
    requires v.pc.Deliver? && (v.pc.at == AskTerminal || v.pc.at == AfterRetryable) && LocalInv(role, v)
    requires v.pc.entry.taskType.Some? && c.reply.Fine? && v.task.status == Open
    ensures LocalInv(role, DeliverStep(cfg, v, c)) && Moves(role, v, DeliverStep(cfg, v, c))
  {
    SpooledAfter(v.log, FoundOpen(role.Key()), role.Key());
  }

  /** What an answer comes to that neither fails the attempt nor finds the task open. */
  lemma AnswerKeeps(role: Role, v: View, at: DeliverAt)
    requires v.pc.Deliver? && LocalInv(role, v)
    requires (at == DropDelivered && v.task.status == Success)
          || (at == Complete && PastCheck(v.pc.at) && v.task.stored)
          || (at == StoreForEntry && PastCheck(v.pc.at))
          || (at == EnsureStored && v.pc.entry.taskType.None?)
    ensures LocalInv(role, v.Goto(v.pc.(at := at))) && Moves(role, v, v.Goto(v.pc.(at := at)))
  {}

  /** The fault an answer comes to, if any. */
  function AskedFault(v: View, c: Choice): Option<Fault>
    requires v.pc.Deliver?
  {
    var typed := v.pc.entry.taskType.Some?;
    if (v.pc.at == AskTerminal || v.pc.at == AfterRetryable) && !typed then
      (if v.pc.at == AskTerminal then None else Some(Retryable))
    else if v.pc.at == AfterNonRetryable && !typed then Some(NonRetryable)
    else if c.reply.Failed? then Some(c.reply.fault)
    else if v.pc.at == AskTerminal || v.pc.at == AfterRetryable then
      (if v.task.status == Failure then Some(NonRetryable) else None)
    else if v.pc.at == AfterNonRetryable then (if v.task.status == Success then None else Some(NonRetryable))
    else if v.pc.at == ConfirmStoredForEntry && !v.task.stored then Some(Retryable)
    else None
  }

  lemma AskingKeeps(cfg: Config, role: Role, v: View, c: Choice)
    requires v.pc.Deliver? && Asking(v.pc.at) && LocalInv(role, v)
    ensures LocalInv(role, DeliverStep(cfg, v, c)) && Moves(role, v, DeliverStep(cfg, v, c))
  {
    if (v.pc.at == AskTerminal || v.pc.at == AfterRetryable)
      && v.pc.entry.taskType.Some? && c.reply.Fine? && v.task.status == Open {
      FoundOpenKeeps(cfg, role, v, c);
    } else if AskedFault(v, c).Some? {
      FaultKeeps(role, v, AskedFault(v, c).value);
    } else {
      AnswerKeeps(role, v, DeliverStep(cfg, v, c).pc.at);
    }
  }

  lemma WritingKeeps(cfg: Config, role: Role, v: View, c: Choice)
    requires v.pc.Deliver? && LocalInv(role, v) && (v.pc.at == EnsureRequestId || v.pc.at == AttemptFailed)
    ensures LocalInv(role, DeliverStep(cfg, v, c)) && Moves(role, v, DeliverStep(cfg, v, c))
  {
    AuthenticIsSpooled(v.log, v.pc.entry);
  }

  lemma DroppingKeeps(cfg: Config, role: Role, v: View, c: Choice)
    requires v.pc.Deliver? && LocalInv(role, v) && (v.pc.at == DropDelivered || v.pc.at == DropRejected)
    ensures LocalInv(role, DeliverStep(cfg, v, c)) && Moves(role, v, DeliverStep(cfg, v, c))
  {
    AuthenticIsSpooled(v.log, v.pc.entry);
  }

  lemma StoringKeeps(cfg: Config, role: Role, v: View, c: Choice)
    requires v.pc.Deliver? && v.pc.at == StoreForEntry && LocalInv(role, v)
    ensures LocalInv(role, DeliverStep(cfg, v, c)) && Moves(role, v, DeliverStep(cfg, v, c))
  {
    if c.reply.Failed? {
      FaultKeeps(role, v.(task := AfterStorePost(v.task, c)), c.reply.fault);
    }
  }

  /** The view right after the request, on the way to asking what became of it. */
  function AfterRequest(v: View, c: Choice): View
    requires v.pc.Deliver?
  {
    v.(task := AfterCompletePost(v.task, c), pc := v.pc.(at := AfterRetryable))
     .Logged(CompletionSent(v.pc.entry.key, v.task.stored, v.pc.entry.taskType.Some?))
  }

  /** The request itself: it was sent for a stored result, and moves the task forward. */
  lemma CompletionKeeps(role: Role, v: View, c: Choice)
    requires v.pc.Deliver? && v.pc.at == Complete && ServerAllows(v, c) && LocalInv(role, v)
    ensures var w := AfterRequest(v, c);
      && Moves(role, v, w) && LocalInv(role, w) && (c.reply.Fine? ==> w.task.status == Success)
      && EverSpooled(w.log, role.Key())
  {
    AuthenticIsSpooled(v.log, v.pc.entry);
    SpooledAfter(v.log, CompletionSent(role.Key(), v.task.stored, v.pc.entry.taskType.Some?), role.Key());
  }

  lemma CompletingKeeps(cfg: Config, role: Role, v: View, c: Choice)
    requires v.pc.Deliver? && v.pc.at == Complete && ServerAllows(v, c) && LocalInv(role, v)
    ensures LocalInv(role, DeliverStep(cfg, v, c)) && Moves(role, v, DeliverStep(cfg, v, c))
  {
    CompletionKeeps(role, v, c);
  }

  lemma DeliverKeeps(cfg: Config, role: Role, v: View, c: Choice)
    requires v.pc.Deliver? && ServerAllows(v, c) && LocalInv(role, v)
    ensures LocalInv(role, DeliverStep(cfg, v, c)) && Moves(role, v, DeliverStep(cfg, v, c))
  {
    if Asking(v.pc.at) {
      AskingKeeps(cfg, role, v, c);
    } else if v.pc.at == StoreForEntry {
      StoringKeeps(cfg, role, v, c);
    } else if v.pc.at == Complete {
      CompletingKeeps(cfg, role, v, c);
    } else if v.pc.at == EnsureRequestId || v.pc.at == AttemptFailed {
      WritingKeeps(cfg, role, v, c);
    } else {
      DroppingKeeps(cfg, role, v, c);
    }
  }

  /** A fresh result on disk. */
  lemma FreshKeeps(role: Role, v: View, payload: Payload)
    requires role.Handler? && LocalInv(role, v) && !Owed(v.log, role.Key())
    ensures var e := FreshEntry(role.msg, payload); var log := v.log + [Spooled(role.Key(), payload)];
      && SlotInv(role.Key(), Some(e), log) && Durable(log, role.Key(), Some(e), v.task) && Authentic(log, e)
      && EverSpooled(log, role.Key()) && Owed(log, role.Key())
  {
    SpooledAfter(v.log, Spooled(role.Key(), payload), role.Key());
  }

  lemma EnqueueKeeps(role: Role, v: View, payload: Payload, next: Pc, c: Choice)
    requires role.Handler? && LocalInv(role, v) && !Owed(v.log, role.Key())
    requires var e := FreshEntry(role.msg, payload);
      (v.pc == EnqueueStored(payload) && next == Deliver(EnsureRequestId, e, 1))
      || (v.pc == EnqueueResult(payload) && next == StoreResult(e, 1))
    ensures var w := Enqueue(v, role.msg, payload, next, c); LocalInv(role, w) && Moves(role, v, w)
  {
    FreshKeeps(role, v, payload);
  }

  lemma StoreKeeps(cfg: Config, role: Role, v: View, c: Choice)
    requires role.Handler? && (v.pc.StoreResult? || v.pc.ConfirmStored?) && LocalInv(role, v)
    ensures LocalInv(role, ProcessStep(cfg, role.msg, v, c)) && Moves(role, v, ProcessStep(cfg, role.msg, v, c))
  {}

  lemma LlmKeeps(cfg: Config, role: Role, v: View, c: Choice)
    requires role.Handler? && v.pc.Llm? && LocalInv(role, v)
    ensures LocalInv(role, ProcessStep(cfg, role.msg, v, c)) && Moves(role, v, ProcessStep(cfg, role.msg, v, c))
  {
    SpooledAfter(v.log, LlmCalled(role.Key()), role.Key());
  }

  lemma ProcessKeeps(cfg: Config, role: Role, v: View, c: Choice)
    requires role.Handler? && ProcessorPc(v.pc) && LocalInv(role, v)
    ensures LocalInv(role, ProcessStep(cfg, role.msg, v, c)) && Moves(role, v, ProcessStep(cfg, role.msg, v, c))
  {
    match v.pc
    case EnqueueStored(p) => EnqueueKeeps(role, v, p, Deliver(EnsureRequestId, FreshEntry(role.msg, p), 1), c);
    case EnqueueResult(p) => EnqueueKeeps(role, v, p, StoreResult(FreshEntry(role.msg, p), 1), c);
    case StoreResult(_, _) => StoreKeeps(cfg, role, v, c);
    case ConfirmStored(_, _) => StoreKeeps(cfg, role, v, c);
    case Llm(_) => LlmKeeps(cfg, role, v, c);
    case _ =>
  }

  lemma FailLostStays(log: seq<Event>, log': seq<Event>, m: Message)
    requires FailLost(log, m) && forall e :: e in log ==> e in log'
    ensures FailLost(log', m)
  {
    var why :| FailPosted(m, why, false) in log;
    assert FailPosted(m, why, false) in log';
  }

  lemma PublishKeeps(cfg: Config, role: Role, v: View, c: Choice)
    requires role.Handler? && v.pc.DlqPublish? && LocalInv(role, v)
    ensures LocalInv(role, FailureStep(cfg, role.msg, v, c)) && Moves(role, v, FailureStep(cfg, role.msg, v, c))
  {
    var e := if c.reply.Fine? then DlqConfirmed(role.msg.Ref()) else DlqUnconfirmed(role.msg.Ref());
    StandingKept(role.Key(), v.slot, v.log, v.task, e);
    if FailLost(v.log, role.msg) {
      FailLostStays(v.log, v.log + [e], role.msg);
    }
  }

  lemma RecordKeeps(cfg: Config, role: Role, v: View, c: Choice)
    requires role.Handler? && v.pc.LedgerWrite? && LocalInv(role, v)
    ensures LocalInv(role, FailureStep(cfg, role.msg, v, c)) && Moves(role, v, FailureStep(cfg, role.msg, v, c))
  {
    StandingKept(role.Key(), v.slot, v.log, v.task, LedgerWriteFailed(role.msg.Ref()));
    if FailLost(v.log, role.msg) {
      FailLostStays(v.log, v.log + [LedgerWriteFailed(role.msg.Ref())], role.msg);
    }
  }

  lemma PostKeeps(cfg: Config, role: Role, v: View, c: Choice)
    requires role.Handler? && v.pc.PostFailed? && LocalInv(role, v)
    ensures LocalInv(role, FailureStep(cfg, role.msg, v, c)) && Moves(role, v, FailureStep(cfg, role.msg, v, c))
  {
    var e := FailPosted(role.msg, v.pc.why, c.reply.Fine? || c.effect);
    SpooledAfter(v.log, e, role.Key());
    assert e in v.log + [e];
  }

  lemma FailureKeeps(cfg: Config, role: Role, v: View, c: Choice)
    requires role.Handler? && FailurePc(v.pc) && LocalInv(role, v)
    ensures LocalInv(role, FailureStep(cfg, role.msg, v, c)) && Moves(role, v, FailureStep(cfg, role.msg, v, c))
  {
    if v.pc.PostFailed? {
      PostKeeps(cfg, role, v, c);
    } else if v.pc.DlqPublish? {
      PublishKeeps(cfg, role, v, c);
    } else if v.pc.LedgerWrite? {
      RecordKeeps(cfg, role, v, c);
    }
  }

  lemma LocalStepKeeps(cfg: Config, role: Role, v: View, c: Choice)
    requires LocalPc(role, v.pc) && ServerAllows(v, c) && LocalInv(role, v)
    ensures LocalInv(role, LocalStep(cfg, role, v, c)) && Moves(role, v, LocalStep(cfg, role, v, c))
  {
    if v.pc.Deliver? {
      DeliverKeeps(cfg, role, v, c);
    } else if v.pc.Ended? {
    } else if ProcessorPc(v.pc) {
      ProcessKeeps(cfg, role, v, c);
    } else {
      FailureKeeps(cfg, role, v, c);
    }
  }

  /** Nothing another actor, the server or the scan does breaks what an actor knows about its own task. */
  lemma PcInvFrame(role: Role, v: View, w: View)
    requires PcInv(role, v)
    requires w.pc == v.pc && w.slot == v.slot && w.inLedger == v.inLedger && v.task.MayBecome(w.task)
    requires forall e :: e in v.log ==> e in w.log
    requires Owed(w.log, role.Key()) ==> Owed(v.log, role.Key())
    requires FoundSince(v.log, role.Key()) ==> FoundSince(w.log, role.Key())
    ensures PcInv(role, w)
  {
    if EverSpooled(v.log, role.Key()) {
      var p :| Spooled(role.Key(), p) in v.log;
      assert Spooled(role.Key(), p) in w.log;
    }
    if role.Handler? && FailLost(v.log, role.msg) {
      FailLostStays(v.log, w.log, role.msg);
    }
  }
}

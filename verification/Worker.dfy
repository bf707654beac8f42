/** The protocol's guarantees over every run: any interleaving of handlers and recovery scans, any lost
    response or failed write, any number of crashes and restarts. */
module Worker {
  import opened Registry
  import opened Protocol
  import opened LocalInvariant
  import opened Exclusion
  import opened Durability
  import opened DeadLetters
  import opened Settlement
  import opened Retries
  import opened Justification
  import opened Conservation
  // ----- The invariant -----

  ghost predicate Inv(cfg: Config, s: State) {
    && Exclusive(s) && Covered(s) && OneReplay(s) && ReplayAwaited(s) && Bounded(cfg.limits, s)
    && Recorded(s) && Justified(s)
    && DlqBounded(s) && SettledOnce(s) && Brokered(cfg, s) && Followed(cfg, s) && GivenUp(cfg, s)
  }

  lemma InitHistory(s: State)
    requires Init(s)
    ensures HistoryOk(s.log)
  {
    forall i | 0 <= i < |s.log| ensures EntryOk(s.log[..i], s.log[i]) {
      forall j | 0 <= j < i ensures s.log[j].key != s.log[i].key {
        assert s.log[j] != s.log[i];
      }
      NothingOwed(s.log[..i], s.log[i].key);
    }
  }

  lemma InitDurable(s: State, k: TaskKey)
    requires Init(s)
    ensures SlotInv(k, s.Slot(k), s.log) && Durable(s.log, k, s.Slot(k), s.Task(k))
  {
    if Owed(s.log, k) {
      OwedIsSpooled(s.log, k);
      var p :| Spooled(k, p) in s.log;
      var i :| 0 <= i < |s.log| && s.log[i] == Spooled(k, p);
      assert s.log[i].key in s.spool;
    }
  }

  lemma {:induction false} InitCounts(log: seq<Event>, r: MessageRef)
    requires forall e :: e in log ==> e.Spooled?
    ensures Confirmed(log, r) == 0
  {
    if log != [] {
      assert log[|log| - 1] in log;
      InitCounts(log[..|log| - 1], r);
    }
  }

  lemma {:induction false} InitAcks(log: seq<Event>)
    requires forall e :: e in log ==> e.Spooled?
    ensures Acks(log) == 0
  {
    if log != [] {
      assert log[|log| - 1] in log;
      InitAcks(log[..|log| - 1]);
    }
  }

  lemma InitRecorded(s: State)
    requires Init(s)
    ensures Recorded(s)
  {
    InitHistory(s);
    forall k ensures SlotInv(k, s.Slot(k), s.log) && Durable(s.log, k, s.Slot(k), s.Task(k)) {
      InitDurable(s, k);
    }
  }

  lemma InitDlq(s: State)
    requires Init(s)
    ensures DlqBounded(s)
  {
    forall e | e in s.log ensures e.Spooled? {}
    forall r ensures Confirmed(s.log, r) == 0 {
      InitCounts(s.log, r);
    }
  }

  lemma InitBounded(cfg: Config, s: State)
    requires Init(s)
    ensures Bounded(cfg.limits, s)
  {
    assert forall t :: Lessees(s, t) == {};
  }

  lemma InitRest(cfg: Config, s: State)
    requires Init(s)
    ensures Exclusive(s) && Covered(s) && OneReplay(s) && ReplayAwaited(s) && SettledOnce(s) && Brokered(cfg, s)
    ensures Justified(s) && Followed(cfg, s) && GivenUp(cfg, s)
  {
    forall e | e in s.log ensures e.Spooled? {}
  }

  lemma InitInv(cfg: Config, s: State)
    requires Init(s)
    ensures Inv(cfg, s)
  {
    InitRecorded(s);
    InitDlq(s);
    InitBounded(cfg, s);
    InitRest(cfg, s);
  }

  lemma StepInv(cfg: Config, s: State, step: Step)
    requires Inv(cfg, s) && Enabled(cfg, s, step)
    ensures Inv(cfg, Apply(cfg, s, step))
  {
    var s' := Apply(cfg, s, step);
    StepEffect(cfg, s, step);
    ExclusiveKept(cfg.limits, s, step, s');
    CoveredKept(cfg.limits, s, step, s');
    OneReplayKept(cfg.limits, s, step, s');
    ReplayAwaitedKept(cfg.limits, s, step, s');
    BoundedKept(cfg.limits, s, step, s');
    RecordedKept(cfg, s, step);
    JustifiedKept(cfg, s, step);
    DlqBoundedKept(cfg, s, step);
    SettledOnceKept(cfg, s, step);
    BrokeredKept(cfg, s, step);
    FollowedKept(cfg, s, step);
    GivenUpKept(cfg, s, step);
  }

  lemma {:induction false} RunInv(cfg: Config, run: seq<State>, steps: seq<Step>, i: nat)
    requires IsRun(cfg, run, steps) && i < |run|
    ensures Inv(cfg, run[i])
  {
    if i == 0 {
      InitInv(cfg, run[0]);
    } else {
      RunInv(cfg, run, steps, i - 1);
      StepInv(cfg, run[i - 1], steps[i - 1]);
    }
  }

  // ----- Guarantees -----

  predicate RejectedBetween(log: seq<Event>, k: TaskKey, i: int, j: int)
    requires -1 <= i && j <= |log|
  {
    exists l :: i < l < j && log[l] == Rejected(k)
  }

  /** Between two spoolings for one task, and between a spooling and a later LLM call, a delivery of the task was
      rejected. */
  lemma OwedOnce(log: seq<Event>, k: TaskKey, i: nat, j: nat)
    requires HistoryOk(log) && i < j < |log| && log[i].Spooled? && log[i].key == k
    requires (log[j].Spooled? || log[j].LlmCalled?) && log[j].key == k
    ensures RejectedBetween(log, k, i, j)
  {
    assert EntryOk(log[..j], log[j]);
    assert log[..j][i] == log[i];
    var l := RejectedSince(log[..j], i, k);
    assert log[l] == Rejected(k);
  }

  /** A task has one result: a second one is spooled only if a delivery of the task was rejected since the first. */
  lemma OneResult(cfg: Config, run: seq<State>, steps: seq<Step>, n: nat, k: TaskKey, p: Payload, q: Payload, i: nat,
                  j: nat)
    requires IsRun(cfg, run, steps) && n < |run|
    requires i < j < |run[n].log| && run[n].log[i] == Spooled(k, p) && run[n].log[j] == Spooled(k, q)
    ensures RejectedBetween(run[n].log, k, i, j)
  {
    RunInv(cfg, run, steps, n);
    OwedOnce(run[n].log, k, i, j);
  }

  /** Without any rejection there is one spooled payload. */
  lemma SamePayload(log: seq<Event>, k: TaskKey, p: Payload, q: Payload)
    requires HistoryOk(log) && Spooled(k, p) in log && Spooled(k, q) in log && Rejected(k) !in log
    ensures p == q
  {
    var i :| 0 <= i < |log| && log[i] == Spooled(k, p);
    var j :| 0 <= j < |log| && log[j] == Spooled(k, q);
    if i < j {
      OwedOnce(log, k, i, j);
    } else if j < i {
      OwedOnce(log, k, j, i);
    }
  }

  /** No finished result is lost: from the moment it is spooled, in every later state, the spool holds a result
      of the task, or the server has the task as terminal, or a delivery of the task was rejected since. While
      none ever was rejected, what the spool holds is that very result. */
  lemma ResultNeverLost(cfg: Config, run: seq<State>, steps: seq<Step>, n: nat, k: TaskKey, p: Payload, i: nat)
    requires IsRun(cfg, run, steps) && n < |run| && i < |run[n].log| && run[n].log[i] == Spooled(k, p)
    ensures RejectedBetween(run[n].log, k, i, |run[n].log|) || run[n].Task(k).Terminal()
         || (k in run[n].spool && run[n].spool[k].key == k && Spooled(k, run[n].spool[k].payload) in run[n].log)
    ensures k in run[n].spool && Rejected(k) !in run[n].log ==> run[n].spool[k].payload == p
  {
    var s := run[n];
    RunInv(cfg, run, steps, n);
    assert Durable(s.log, k, s.Slot(k), s.Task(k)) && SlotInv(k, s.Slot(k), s.log);
    if !Owed(s.log, k) {
      var l := RejectedSince(s.log, i, k);
      assert s.log[l] == Rejected(k);
    }
    if k in s.spool && Rejected(k) !in s.log {
      SamePayload(s.log, k, p, s.spool[k].payload);
    }
  }

  /** The LLM never runs again for a task whose result was spooled, unless a delivery was rejected in between. */
  lemma NoLlmRerun(cfg: Config, run: seq<State>, steps: seq<Step>, n: nat, k: TaskKey, p: Payload, i: nat, j: nat)
    requires IsRun(cfg, run, steps) && n < |run|
    requires i < j < |run[n].log| && run[n].log[i] == Spooled(k, p) && run[n].log[j] == LlmCalled(k)
    ensures RejectedBetween(run[n].log, k, i, j)
  {
    RunInv(cfg, run, steps, n);
    OwedOnce(run[n].log, k, i, j);
  }

  /** Every complete or finalize request was sent while the server held the task's result. */
  lemma ResultBeforeCompletion(cfg: Config, run: seq<State>, steps: seq<Step>, n: nat, k: TaskKey, stored: bool,
                               typed: bool)
    requires IsRun(cfg, run, steps) && n < |run| && CompletionSent(k, stored, typed) in run[n].log
    ensures stored
  {
    var log := run[n].log;
    RunInv(cfg, run, steps, n);
    var i :| 0 <= i < |log| && log[i] == CompletionSent(k, stored, typed);
    assert EntryOk(log[..i], log[i]);
  }

  /** No completion is sent again on the strength of an earlier check: between two of them for one task, the
      later one from an entry whose status can be asked for, the status was read and found open. */
  lemma CompletionsAreChecked(cfg: Config, run: seq<State>, steps: seq<Step>, n: nat, k: TaskKey, i: nat, j: nat)
    requires IsRun(cfg, run, steps) && n < |run| && i < j < |run[n].log|
    requires run[n].log[i].CompletionSent? && run[n].log[i].key == k
    requires run[n].log[j].CompletionSent? && run[n].log[j].key == k && run[n].log[j].typed
    ensures exists l :: i < l < j && run[n].log[l] == FoundOpen(k)
  {
    var log := run[n].log;
    RunInv(cfg, run, steps, n);
    assert EntryOk(log[..j], log[j]);
    assert log[..j][i] == log[i];
    var l := FoundBetween(log[..j], i, k);
    assert log[l] == FoundOpen(k);
  }

  /** One more try is allowed: by the message's own maximum, or without one by the setting for its task type. */
  predicate RetryLeft(cfg: Config, m: Message) {
    if m.maxRetryCount != 0 then m.retryCount < m.maxRetryCount
    else if m.taskType == Analysis then m.retryCount < cfg.analysisMaxRetry
    else m.retryCount < cfg.jobPostingMaxRetry
  }

  /** A task is reported as failed while its result is owed only for want of retries, or because something other
      than a delivery of the result was refused. */
  lemma FailureWhileOwed(cfg: Config, run: seq<State>, steps: seq<Step>, n: nat, i: nat)
    requires IsRun(cfg, run, steps) && n < |run| && i < |run[n].log| && run[n].log[i].FailPosted?
    requires Owed(run[n].log[..i], run[n].log[i].msg.Key())
    ensures run[n].log[i].cause == RefusedOutside
         || (run[n].log[i].cause == OutOfRetries && !RetryLeft(cfg, run[n].log[i].msg))
  {
    var log := run[n].log;
    RunInv(cfg, run, steps, n);
    assert EntryOk(log[..i], log[i]);
    assert log[i] in log && log[i] == FailPosted(log[i].msg, log[i].cause, log[i].effective);
  }

  ghost function Working(s: State): set<TaskId> {
    set a | a in s.actors && s.actors[a].registered :: s.actors[a].Id()
  }

  /** Handlers running a processor or its failure path, for one task type. */
  ghost function Processing(s: State, t: TaskType): set<nat> {
    set a | a in s.actors && s.actors[a].role.Handler? && s.actors[a].role.Key().kind == t
            && LocalPc(s.actors[a].role, s.actors[a].pc)
  }

  lemma InflightIsWorking(s: State)
    requires Exclusive(s) && Covered(s)
    ensures s.inflight == Working(s)
  {
    forall x ensures x in s.inflight <==> x in Working(s) {
      if x in s.inflight {
        var a :| Works(s, a) && s.actors[a].Id() == x;
      }
    }
  }

  lemma ProcessingIsLeased(s: State, t: TaskType)
    requires Exclusive(s)
    ensures Processing(s, t) <= Lessees(s, t)
  {
    forall a | a in Processing(s, t) ensures a in Lessees(s, t) {
      assert Shaped(s.actors[a]);
    }
  }

  /** The inflight registry is exactly the task ids being worked on, each by one actor; the limiter's count is
      the number of unreleased leases; no more handlers process a type than its limit; and the one replay there
      may be holds no lease. */
  lemma ExclusionAndBounds(cfg: Config, run: seq<State>, steps: seq<Step>, n: nat, t: TaskType)
    requires IsRun(cfg, run, steps) && n < |run|
    ensures run[n].inflight == Working(run[n])
    ensures forall a, b ::
      Works(run[n], a) && Works(run[n], b) && run[n].actors[a].Id() == run[n].actors[b].Id() ==> a == b
    ensures Held(run[n].counts, t) == |Lessees(run[n], t)|
    ensures |Processing(run[n], t)| <= 1
         || |Processing(run[n], t)| <= if t == Analysis then cfg.limits.analysis else cfg.limits.jobPosting
    ensures forall a, b :: IsReplay(run[n], a) && IsReplay(run[n], b) ==> a == b && !run[n].actors[a].leased
  {
    var s := run[n];
    RunInv(cfg, run, steps, n);
    InflightIsWorking(s);
    ProcessingIsLeased(s, t);
    SubsetSize(Processing(s, t), Lessees(s, t));
    forall a | IsReplay(s, a) ensures !s.actors[a].leased {
      assert Shaped(s.actors[a]);
    }
  }

  /** A message is confirmed onto the DLQ at most once, plus once per ledger write that failed or that a crash
      cut off. */
  lemma DeadLetteredOnce(cfg: Config, run: seq<State>, steps: seq<Step>, n: nat, r: MessageRef)
    requires IsRun(cfg, run, steps) && n < |run|
    ensures Confirmed(run[n].log, r) <= 1 + Unrecorded(run[n].log, r)
  {
    RunInv(cfg, run, steps, n);
    AtMostOnce(run[n], r);
  }

  /** A delivery is settled at most once; one that was taken is settled, or its handler is still at work and
      is the one holder of a copy of that message. */
  lemma SettledExactlyOnce(cfg: Config, run: seq<State>, steps: seq<Step>, n: nat, d: nat)
    requires IsRun(cfg, run, steps) && n < |run|
    ensures forall i, j :: 0 <= i < j < |run[n].log| && d in SettledBy(run[n].log[i]) ==> d !in SettledBy(run[n].log[j])
    ensures Taken(d) in run[n].log ==> (Settled(run[n].log, d) <==> !Owes(run[n], d))
    ensures Owes(run[n], d) ==> Holds(run[n], d)
  {
    var s := run[n];
    RunInv(cfg, run, steps, n);
    if Taken(d) in s.log {
      var i :| 0 <= i < |s.log| && s.log[i] == Taken(d);
      if Settled(s.log, d) {
        var j :| 0 <= j < |s.log| && d in SettledBy(s.log[j]);
        assert Past(s, s.log[j]);
      }
    }
  }

  lemma SpooledThenRejected(log: seq<Event>, k: TaskKey)
    requires EverSpooled(log, k) && !Owed(log, k)
    ensures Rejected(k) in log
  {
    var p :| Spooled(k, p) in log;
    var i :| 0 <= i < |log| && log[i] == Spooled(k, p);
    var l := RejectedSince(log, i, k);
  }

  /** Nothing is acknowledged away: what became of every acknowledged message. One acknowledged as republished
      is traced through its next generations to one that is still with the broker, or was acknowledged for one of
      the other reasons. */
  lemma AcknowledgedIsAccounted(cfg: Config, run: seq<State>, steps: seq<Step>, n: nat, d: nat, m: Message,
                                why: AckReason)
    requires IsRun(cfg, run, steps) && n < |run| && Acked(d, m, why) in run[n].log
    ensures why == Processed ==>
      run[n].Task(m.Key()).Terminal() || m.Key() in run[n].spool
      || (Rejected(m.Key()) in run[n].log && !Owed(run[n].log, m.Key()))
    ensures why == Republished ==> exists chain :: Traced(cfg, run[n], m, chain) && |chain| > 1
    ensures why == LedgerHit ==> m.Ref() in run[n].ledger
    ensures why == AlreadyTerminal ==> run[n].Task(m.Key()).Terminal()
    ensures why == DlqDone ==> DlqConfirmed(m.Ref()) in run[n].log
    ensures why == DlqFailed ==> DlqUnconfirmed(m.Ref()) in run[n].log
    ensures why == DlqDone || why == DlqFailed ==> run[n].Task(m.Key()).Terminal() || FailLost(run[n].log, m)
  {
    var s := run[n];
    RunInv(cfg, run, steps, n);
    assert Accounted(s.log, m, m.Ref() in s.ledger, s.Task(m.Key()), why);
    assert Durable(s.log, m.Key(), s.Slot(m.Key()), s.Task(m.Key()));
    if why == Republished {
      var chain := Trace(cfg, s, cfg.Retried(m));
      TracedLonger(cfg, s, m, chain);
      assert Traced(cfg, s, m, [m] + chain);
    }
    if EverSpooled(s.log, m.Key()) && !Owed(s.log, m.Key()) {
      SpooledThenRejected(s.log, m.Key());
    }
  }

  /** What holds of the state after step `i` holds from then on. */
  lemma {:induction false} LivesFromThen(cfg: Config, run: seq<State>, steps: seq<Step>, i: nat, n: nat, m: Message)
    requires IsRun(cfg, run, steps) && i <= n < |run| && Lives(run[i], m)
    ensures Lives(run[n], m)
  {
    if i < n {
      LivesFromThen(cfg, run, steps, i, n - 1, m);
      RunInv(cfg, run, steps, n - 1);
      LivesOn(cfg, run[n - 1], steps[n - 1], m);
    }
  }

  /** No message is lost: in every later state some generation of every message put into the queue is still with
      the broker, or was acknowledged for good. */
  lemma MessageNeverLost(cfg: Config, run: seq<State>, steps: seq<Step>, i: nat, n: nat, m: Message)
    requires IsRun(cfg, run, steps) && i < n < |run| && steps[i] == Produce(Task(m))
    ensures exists chain :: Traced(cfg, run[n], m, chain)
  {
    assert run[i + 1].copies[run[i].next].packet == Task(m);
    LivesFromThen(cfg, run, steps, i + 1, n, m);
    RunInv(cfg, run, steps, n);
    var chain := Trace(cfg, run[n], m);
  }

  function Entered(cfg: Config, run: seq<State>, steps: seq<Step>, n: nat, r: MessageRef): nat
    requires n <= |steps| < |run|
  {
    if n == 0 then 0 else Entered(cfg, run, steps, n - 1, r) + Added(cfg, run[n - 1], steps[n - 1], r)
  }

  /** Conservation: of the messages with one identity, those waiting with the broker and those acknowledged for
      good are exactly those that were put in, and a republish in progress counts on one side until its
      acknowledgement. */
  lemma {:induction false} MessagesConserved(cfg: Config, run: seq<State>, steps: seq<Step>, n: nat, r: MessageRef)
    requires IsRun(cfg, run, steps) && n < |run|
    ensures |Waiting(run[n].copies, r)| + Finished(run[n].log, r)
         == |Handing(run[n], r)| + Entered(cfg, run, steps, n, r)
  {
    if n == 0 {
      InitFinished(run[0].log, r);
      assert Waiting(run[0].copies, r) == {} && Handing(run[0], r) == {};
    } else {
      MessagesConserved(cfg, run, steps, n - 1, r);
      RunInv(cfg, run, steps, n - 1);
      StepBalanced(cfg, run[n - 1], steps[n - 1], r);
    }
  }

  lemma {:induction false} InitFinished(log: seq<Event>, r: MessageRef)
    requires forall i :: 0 <= i < |log| ==> log[i].Spooled?
    ensures Finished(log, r) == 0
  {
    if log != [] {
      InitFinished(log[..|log| - 1], r);
    }
  }

  lemma LocalPaid(cfg: Config, s: State, a: nat, c: Choice)
    requires Enabled(cfg, s, Local(a, c)) && Exclusive(s) && Recorded(s) && Brokered(cfg, s)
    ensures Paid(cfg, s, s.Put(a, LocalStep(cfg, s.actors[a].role, s.See(a), c)), 0)
  {
    LocalOwes(cfg, s, a, c);
    IdlePaid(cfg, s, s.Put(a, LocalStep(cfg, s.actors[a].role, s.See(a), c)));
  }

  lemma StepPaid(cfg: Config, s: State, step: Step)
    requires Inv(cfg, s) && Enabled(cfg, s, step)
    ensures Paid(cfg, s, Apply(cfg, s, step), Topup(cfg, s, step))
  {
    match step
    case Local(a, c) => LocalPaid(cfg, s, a, c);
    case RepublishCopy(a, confirmed, effect) => RepublishPaid(cfg, s, a, confirmed, effect);
    case SettleCopy(a) => SettlePaid(cfg, s, a);
    case Receive(c) => ReceivePaid(cfg, s, c);
    case Produce(p) => ProducePaid(cfg, s, p);
    case Crash => CrashPaid(cfg, s);
    case _ =>
      EnabledLog(cfg, s, step);
      SameCopies(cfg, s, step);
      IdlePaid(cfg, s, Apply(cfg, s, step));
  }

  function Topups(cfg: Config, run: seq<State>, steps: seq<Step>, n: nat): nat
    requires n <= |steps| < |run|
  {
    if n == 0 then 0 else Topups(cfg, run, steps, n - 1) + Topup(cfg, run[n - 1], steps[n - 1])
  }

  /** Retrying ends: over any run the acknowledged deliveries, and those the queued copies can still cause, are
      paid for by what producers published, one unit per message and per retry it had left, plus what crashes
      between republish and ack and unconfirmed republishes duplicated. */
  lemma {:induction false} RetriesEnd(cfg: Config, run: seq<State>, steps: seq<Step>, n: nat)
    requires IsRun(cfg, run, steps) && n < |run|
    ensures Acks(run[n].log) + Total(cfg, run[n].copies, run[n].next) <= Topups(cfg, run, steps, n)
  {
    if n == 0 {
      forall e | e in run[0].log ensures e.Spooled? {}
      InitAcks(run[0].log);
      TotalBeyond(cfg, map[], 0, run[0].next);
    } else {
      RetriesEnd(cfg, run, steps, n - 1);
      RunInv(cfg, run, steps, n - 1);
      StepPaid(cfg, run[n - 1], steps[n - 1]);
    }
  }
}

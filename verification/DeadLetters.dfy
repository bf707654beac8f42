/** Dead letters: a message is confirmed onto the DLQ once, plus once for every ledger write that got lost. */
module DeadLetters {
  import opened Registry
  import opened Protocol
  import opened LocalInvariant
  import opened Exclusion
  import opened Durability

  function Confirmed(log: seq<Event>, r: MessageRef): nat {
    if log == [] then 0
    else Confirmed(log[..|log| - 1], r) + if log[|log| - 1] == DlqConfirmed(r) then 1 else 0
  }

  predicate LosesRecord(e: Event, r: MessageRef) {
    e == LedgerWriteFailed(r) || (e.Crashed? && r in e.unrecorded)
  }

  /** Ledger writes for `r` that failed or that a crash cut off. */
  function Unrecorded(log: seq<Event>, r: MessageRef): nat {
    if log == [] then 0
    else Unrecorded(log[..|log| - 1], r) + if LosesRecord(log[|log| - 1], r) then 1 else 0
  }

  lemma CountsAfter(log: seq<Event>, e: Event, r: MessageRef)
    ensures Confirmed(log + [e], r) == Confirmed(log, r) + if e == DlqConfirmed(r) then 1 else 0
    ensures Unrecorded(log + [e], r) == Unrecorded(log, r) + if LosesRecord(e, r) then 1 else 0
  {
    assert (log + [e])[..|log + [e]| - 1] == log;
  }

  /** Between the confirmed publish and the ledger write. */
  predicate Writing(x: Actor, r: MessageRef) {
    x.role.Handler? && x.pc.LedgerWrite? && x.role.msg.Ref() == r
  }

  ghost predicate Pending(s: State, r: MessageRef) {
    exists a :: a in s.actors && Writing(s.actors[a], r)
  }

  function Bit(b: bool): nat { if b then 1 else 0 }

  ghost predicate DlqBounded(s: State) {
    forall r :: Confirmed(s.log, r) <= Unrecorded(s.log, r) + Bit(r in s.ledger) + Bit(Pending(s, r))
  }

  /** Events that are neither dead letters nor settlements. */
  predicate Harmless(e: Event) {
    e.LlmCalled? || e.Spooled? || e.Rejected? || e.FoundOpen? || e.CompletionSent? || e.FailPosted?
  }

  /** What a local step does to the DLQ bookkeeping. */
  ghost predicate DlqMoves(role: Role, v: View, w: View) {
    if v.pc.DlqPublish? then
      role.Handler? && w.inLedger == v.inLedger
      && (if w.pc.LedgerWrite? then w.log == v.log + [DlqConfirmed(role.msg.Ref())]
          else w.log == v.log + [DlqUnconfirmed(role.msg.Ref())])
    else if v.pc.LedgerWrite? then
      role.Handler? && !w.pc.LedgerWrite? && (v.inLedger ==> w.inLedger)
      && ((w.log == v.log && w.inLedger) || w.log == v.log + [LedgerWriteFailed(role.msg.Ref())])
    else
      !w.pc.LedgerWrite? && w.inLedger == v.inLedger
      && (w.log == v.log || (|w.log| == |v.log| + 1 && w.log == v.log + [w.log[|v.log|]]
            && Harmless(w.log[|v.log|])))
  }

  lemma FaultDlq(role: Role, v: View, f: Fault)
    requires v.pc.Deliver?
    ensures DlqMoves(role, v, AttemptFault(v, f))
  {}

  lemma DeliverDlq(cfg: Config, role: Role, v: View, c: Choice)
    requires v.pc.Deliver?
    ensures DlqMoves(role, v, DeliverStep(cfg, v, c))
  {
    FaultDlq(role, v, Retryable);
    FaultDlq(role, v, NonRetryable);
    FaultDlq(role, v, Unexpected);
  }

  lemma ProcessDlq(cfg: Config, role: Role, v: View, c: Choice)
    requires role.Handler? && ProcessorPc(v.pc)
    ensures DlqMoves(role, v, ProcessStep(cfg, role.msg, v, c))
  {}

  lemma LocalDlq(cfg: Config, role: Role, v: View, c: Choice)
    requires LocalPc(role, v.pc)
    ensures DlqMoves(role, v, LocalStep(cfg, role, v, c))
  {
    if v.pc.Deliver? {
      DeliverDlq(cfg, role, v, c);
    } else if ProcessorPc(v.pc) {
      ProcessDlq(cfg, role, v, c);
    }
  }

  /** A pending write elsewhere stays pending, and none appears but through actor `a`. */
  lemma PendingAfter(s: State, s': State, a: nat, r: MessageRef)
    requires a in s.actors && a in s'.actors && s'.actors == s.actors[a := s.actors[a].(pc := s'.actors[a].pc)]
    requires !Writing(s.actors[a], r)
    ensures Pending(s, r) ==> Pending(s', r)
    ensures Writing(s'.actors[a], r) ==> Pending(s', r)
  {
    if Pending(s, r) {
      var b :| b in s.actors && Writing(s.actors[b], r);
      assert b in s'.actors && Writing(s'.actors[b], r);
    }
  }

  lemma NoOtherWriter(s: State, a: nat)
    requires Exclusive(s) && Works(s, a) && s.actors[a].role.Handler? && !s.actors[a].pc.LedgerWrite?
    ensures !Pending(s, s.actors[a].role.msg.Ref())
  {
    var r := s.actors[a].role.msg.Ref();
    forall b | b in s.actors ensures !Writing(s.actors[b], r) {
      assert Shaped(s.actors[b]);
    }
  }

  lemma LocalBound(s: State, a: nat, w: View, r: MessageRef)
    requires Exclusive(s) && Works(s, a) && DlqBounded(s) && DlqMoves(s.actors[a].role, s.See(a), w)
    requires PcInv(s.actors[a].role, s.See(a))
    ensures var s' := s.Put(a, w);
      Confirmed(s'.log, r) <= Unrecorded(s'.log, r) + Bit(r in s'.ledger) + Bit(Pending(s', r))
  {
    var s' := s.Put(a, w);
    var x := s.actors[a];
    assert Confirmed(s.log, r) <= Unrecorded(s.log, r) + Bit(r in s.ledger) + Bit(Pending(s, r));
    if w.log != s.log {
      CountsAfter(s.log, w.log[|s.log|], r);
    }
    if !Writing(x, r) {
      PendingAfter(s, s', a, r);
    }
    if x.pc.DlqPublish? && x.role.msg.Ref() == r {
      NoOtherWriter(s, a);
    }
  }

  /** No actor stops writing. */
  ghost predicate WritersStay(s: State, s': State) {
    forall a :: a in s.actors && s.actors[a].pc.LedgerWrite? ==> a in s'.actors && s'.actors[a] == s.actors[a]
  }

  lemma SameWriters(s: State, s': State, r: MessageRef)
    requires WritersStay(s, s')
    ensures Pending(s, r) ==> Pending(s', r)
  {
    if Pending(s, r) {
      var a :| a in s.actors && Writing(s.actors[a], r);
      assert a in s'.actors && Writing(s'.actors[a], r);
    }
  }

  lemma OtherBound(s: State, s': State, r: MessageRef)
    requires DlqBounded(s) && s'.ledger == s.ledger && LogQuiet(s.log, s'.log)
    requires |s'.log| > |s.log| ==> !s'.log[|s.log|].Crashed?
    requires WritersStay(s, s')
    ensures Confirmed(s'.log, r) <= Unrecorded(s'.log, r) + Bit(r in s'.ledger) + Bit(Pending(s', r))
  {
    assert Confirmed(s.log, r) <= Unrecorded(s.log, r) + Bit(r in s.ledger) + Bit(Pending(s, r));
    if s'.log != s.log {
      CountsAfter(s.log, s'.log[|s.log|], r);
    }
    SameWriters(s, s', r);
  }

  lemma CrashBound(s: State, r: MessageRef)
    requires DlqBounded(s)
    ensures var s' := CrashStep(s);
      Confirmed(s'.log, r) <= Unrecorded(s'.log, r) + Bit(r in s'.ledger) + Bit(Pending(s', r))
  {
    var s' := CrashStep(s);
    assert Confirmed(s.log, r) <= Unrecorded(s.log, r) + Bit(r in s.ledger) + Bit(Pending(s, r));
    assert s'.log == s.log + [s'.log[|s.log|]];
    CountsAfter(s.log, s'.log[|s.log|], r);
    if Pending(s, r) {
      var a :| a in s.actors && Writing(s.actors[a], r);
      assert LosesRecord(s'.log[|s.log|], r);
    }
  }

  lemma EffectWriters(limits: Limits, s: State, step: Step, s': State)
    requires Exclusive(s) && Effect(limits, s, step, s') && !step.Local? && !step.Crash?
    requires step.RepublishCopy? || step.SettleCopy? || step.Register? || step.Release? ==>
      step.actor in s.actors && !s.actors[step.actor].pc.LedgerWrite?
    ensures WritersStay(s, s')
  {
    assert s.next !in s.actors;
  }

  lemma EnabledWriters(cfg: Config, s: State, step: Step)
    requires Enabled(cfg, s, step) && Exclusive(s) && !step.Local? && !step.Crash?
    ensures WritersStay(s, Apply(cfg, s, step))
  {
    StepEffect(cfg, s, step);
    EffectWriters(cfg.limits, s, step, Apply(cfg, s, step));
  }

  lemma RegisterLog(cfg: Config, s: State, a: nat)
    requires a in s.actors
    ensures RegisterStep(cfg, s, a).log == s.log && RegisterStep(cfg, s, a).ledger == s.ledger
  {}

  lemma ReleaseLog(s: State, a: nat)
    requires a in s.actors && s.actors[a].pc.Releasing?
    ensures ReleaseStep(s, a).log == s.log && ReleaseStep(s, a).ledger == s.ledger
  {}

  lemma RepublishLog(cfg: Config, s: State, a: nat, confirmed: bool, effect: bool)
    requires a in s.actors && s.actors[a].role.Handler?
    ensures var s' := RepublishStep(cfg, s, a, confirmed, effect); s'.log == s.log && s'.ledger == s.ledger
  {}

  lemma ReceiveLog(s: State, c: nat)
    requires c in s.copies
    ensures var s' := ReceiveStep(s, c);
      s'.ledger == s.ledger && |s'.log| == |s.log| + 1 && s'.log == s.log + [s'.log[|s.log|]]
      && (s'.log[|s.log|].Taken? || s'.log[|s.log|].Discarded?)
  {}

  lemma SettleLog(s: State, a: nat)
    requires a in s.actors && s.actors[a].role.Handler? && s.actors[a].pc.Settle? && s.actors[a].role.copy in s.copies
    ensures var s' := SettleStep(s, a);
      s'.ledger == s.ledger && |s'.log| == |s.log| + 1 && s'.log == s.log + [s'.log[|s.log|]]
      && (s'.log[|s.log|].Acked? || s'.log[|s.log|].Requeued?)
  {}

  lemma EnabledLog(cfg: Config, s: State, step: Step)
    requires Enabled(cfg, s, step) && !step.Local? && !step.Crash?
    ensures var s' := Apply(cfg, s, step);
      && s'.ledger == s.ledger && LogQuiet(s.log, s'.log)
      && (|s'.log| > |s.log| ==> !s'.log[|s.log|].Crashed? && (s'.log[|s.log|].Acked? ==> step.SettleCopy?))
  {
    match step
    case Register(a) => RegisterLog(cfg, s, a);
    case Release(a) => ReleaseLog(s, a);
    case RepublishCopy(a, confirmed, effect) => RepublishLog(cfg, s, a, confirmed, effect);
    case Receive(c) => ReceiveLog(s, c);
    case SettleCopy(a) => SettleLog(s, a);
    case _ =>
  }

  lemma LocalStepBound(cfg: Config, s: State, a: nat, c: Choice, r: MessageRef)
    requires Enabled(cfg, s, Local(a, c)) && Exclusive(s) && Recorded(s) && DlqBounded(s)
    ensures var s' := s.Put(a, LocalStep(cfg, s.actors[a].role, s.See(a), c));
      Confirmed(s'.log, r) <= Unrecorded(s'.log, r) + Bit(r in s'.ledger) + Bit(Pending(s', r))
  {
    var x := s.actors[a];
    assert Shaped(x);
    LocalDlq(cfg, x.role, s.See(a), c);
    LocalBound(s, a, LocalStep(cfg, x.role, s.See(a), c), r);
  }

  lemma DlqBoundedKept(cfg: Config, s: State, step: Step)
    requires Enabled(cfg, s, step) && Exclusive(s) && Recorded(s) && DlqBounded(s)
    ensures DlqBounded(Apply(cfg, s, step))
  {
    var s' := Apply(cfg, s, step);
    if !step.Local? && !step.Crash? {
      EnabledLog(cfg, s, step);
      EnabledWriters(cfg, s, step);
    }
    forall r ensures Confirmed(s'.log, r) <= Unrecorded(s'.log, r) + Bit(r in s'.ledger) + Bit(Pending(s', r)) {
      match step
      case Local(a, c) => LocalStepBound(cfg, s, a, c, r);
      case Crash => CrashBound(s, r);
      case _ => OtherBound(s, s', r);
    }
  }

  lemma AtMostOnce(s: State, r: MessageRef)
    requires Recorded(s) && DlqBounded(s)
    ensures Confirmed(s.log, r) <= 1 + Unrecorded(s.log, r)
  {
    assert Confirmed(s.log, r) <= Unrecorded(s.log, r) + Bit(r in s.ledger) + Bit(Pending(s, r));
    forall a | a in s.actors && Writing(s.actors[a], r) ensures r !in s.ledger {
      assert PcInv(s.actors[a].role, s.See(a));
    }
  }
}

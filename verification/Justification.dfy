/** What no step takes back, and why every acknowledgement stays justified by it. */
module Justification {
  import opened Protocol
  import opened LocalInvariant
  import opened Exclusion
  import opened Durability
  import opened DeadLetters

  /** What no step ever takes back. */
  ghost predicate Forward(s: State, s': State) {
    && s.log <= s'.log && s.ledger <= s'.ledger
    && forall k :: s.Task(k).MayBecome(s'.Task(k))
  }

  ghost predicate Justified(s: State) {
    forall d, m, why :: Acked(d, m, why) in s.log ==> Accounted(s.log, m, m.Ref() in s.ledger, s.Task(m.Key()), why)
  }

  lemma SpooledStays(log: seq<Event>, log': seq<Event>, k: TaskKey)
    requires log <= log' && EverSpooled(log, k)
    ensures EverSpooled(log', k)
  {
    var p :| Spooled(k, p) in log;
    assert Spooled(k, p) in log';
  }

  lemma AccountedStays(s: State, s': State, m: Message, why: AckReason)
    requires Forward(s, s') && Accounted(s.log, m, m.Ref() in s.ledger, s.Task(m.Key()), why)
    ensures Accounted(s'.log, m, m.Ref() in s'.ledger, s'.Task(m.Key()), why)
  {
    assert s.Task(m.Key()).MayBecome(s'.Task(m.Key()));
    if EverSpooled(s.log, m.Key()) {
      SpooledStays(s.log, s'.log, m.Key());
    }
    if FailLost(s.log, m) {
      FailLostStays(s.log, s'.log, m);
    }
  }

  lemma MovesForward(s: State, a: nat, w: View)
    requires a in s.actors && Moves(s.actors[a].role, s.See(a), w)
    ensures Forward(s, s.Put(a, w)) && (forall e :: e in w.log && e !in s.log ==> !e.Acked?)
  {
    forall k ensures s.Task(k).MayBecome(s.Put(a, w).Task(k)) {}
  }

  lemma LocalForward(cfg: Config, s: State, a: nat, c: Choice)
    requires Enabled(cfg, s, Local(a, c)) && Recorded(s)
    ensures var s' := s.Put(a, LocalStep(cfg, s.actors[a].role, s.See(a), c));
      Forward(s, s') && (forall e :: e in s'.log && e !in s.log ==> !e.Acked?)
  {
    var role := s.actors[a].role;
    assert SlotInv(role.Key(), s.Slot(role.Key()), s.log);
    LocalStepKeeps(cfg, role, s.See(a), c);
    MovesForward(s, a, LocalStep(cfg, role, s.See(a), c));
  }

  lemma SameServer(cfg: Config, s: State, step: Step)
    requires Enabled(cfg, s, step) && !step.Local? && !step.Crash? && !step.ServerMoves?
    ensures Apply(cfg, s, step).server == s.server
  {
    match step
    case Register(_) =>
    case Release(_) =>
    case RepublishCopy(_, _, _) =>
    case _ =>
  }

  lemma QuietForward(s: State, s': State)
    requires s'.ledger == s.ledger && LogQuiet(s.log, s'.log) && s'.server == s.server
    ensures Forward(s, s')
  {}

  lemma CrashForward(s: State)
    ensures Forward(s, CrashStep(s))
  {}

  lemma StepForward(cfg: Config, s: State, step: Step)
    requires Enabled(cfg, s, step) && Recorded(s)
    ensures Forward(s, Apply(cfg, s, step))
  {
    match step
    case Local(a, c) => LocalForward(cfg, s, a, c);
    case Crash => CrashForward(s);
    case ServerMoves(_) =>
    case _ =>
      EnabledLog(cfg, s, step);
      SameServer(cfg, s, step);
      QuietForward(s, Apply(cfg, s, step));
  }

  lemma NoNewAcks(cfg: Config, s: State, step: Step)
    requires Enabled(cfg, s, step) && Recorded(s) && !step.SettleCopy?
    ensures forall e :: e in Apply(cfg, s, step).log && e !in s.log ==> !e.Acked?
  {
    match step
    case Local(a, c) => LocalForward(cfg, s, a, c);
    case Crash =>
    case _ => EnabledLog(cfg, s, step);
  }

  lemma NewAcks(cfg: Config, s: State, a: nat, e: Event)
    requires Enabled(cfg, s, SettleCopy(a)) && e in SettleStep(s, a).log && e !in s.log && e.Acked?
    ensures e.delivery == a && s.actors[a].role.msg == e.msg && s.actors[a].pc == Settle(Ack(e.why))
  {}

  lemma AckIsAccounted(s: State, a: nat, why: AckReason)
    requires Recorded(s) && a in s.actors && s.actors[a].pc == Settle(Ack(why))
    ensures s.actors[a].role.Handler?
    ensures var m := s.actors[a].role.msg; Accounted(s.log, m, m.Ref() in s.ledger, s.Task(m.Key()), why)
  {
    assert PcInv(s.actors[a].role, s.See(a));
  }

  lemma FreshAck(cfg: Config, s: State, step: Step, d: nat, m: Message, why: AckReason)
    requires Enabled(cfg, s, step) && Recorded(s)
    requires Acked(d, m, why) in Apply(cfg, s, step).log && Acked(d, m, why) !in s.log
    ensures Accounted(s.log, m, m.Ref() in s.ledger, s.Task(m.Key()), why)
  {
    if !step.SettleCopy? {
      NoNewAcks(cfg, s, step);
    }
    NewAcks(cfg, s, step.actor, Acked(d, m, why));
    AckIsAccounted(s, d, why);
  }

  lemma JustifiedKept(cfg: Config, s: State, step: Step)
    requires Enabled(cfg, s, step) && Recorded(s) && Justified(s)
    ensures Justified(Apply(cfg, s, step))
  {
    var s' := Apply(cfg, s, step);
    StepForward(cfg, s, step);
    forall d, m, why | Acked(d, m, why) in s'.log
      ensures Accounted(s'.log, m, m.Ref() in s'.ledger, s'.Task(m.Key()), why)
    {
      if Acked(d, m, why) !in s.log {
        FreshAck(cfg, s, step, d, m, why);
      }
      AccountedStays(s, s', m, why);
    }
  }

  // ----- Giving up for want of retries -----

  predicate GivesUp(pc: Pc) {
    (pc.LedgerCheck? || pc.TerminalCheck? || pc.PostFailed?) && pc.why == OutOfRetries
  }

  /** Whoever says that the retries are used up is right. */
  ghost predicate GivenUp(cfg: Config, s: State) {
    && (forall a :: a in s.actors && GivesUp(s.actors[a].pc) ==>
          s.actors[a].role.Handler? && cfg.Exhausted(s.actors[a].role.msg))
    && (forall m, effective :: FailPosted(m, OutOfRetries, effective) in s.log ==> cfg.Exhausted(m))
  }

  lemma LocalGivesUp(cfg: Config, role: Role, v: View, c: Choice)
    requires LocalPc(role, v.pc) && GivesUp(LocalStep(cfg, role, v, c).pc)
    ensures role.Handler? && (GivesUp(v.pc) || cfg.Exhausted(role.msg))
  {
    if v.pc.Deliver? {
      DeliverStays(cfg, v, c);
    }
  }

  lemma PutGivenUp(cfg: Config, s: State, a: nat, w: View)
    requires GivenUp(cfg, s) && a in s.actors && Moves(s.actors[a].role, s.See(a), w)
    requires GivesUp(w.pc) ==> s.actors[a].role.Handler? && cfg.Exhausted(s.actors[a].role.msg)
    ensures GivenUp(cfg, s.Put(a, w))
  {
    forall m, effective | FailPosted(m, OutOfRetries, effective) in w.log ensures cfg.Exhausted(m) {
      if FailPosted(m, OutOfRetries, effective) !in s.log {
        assert w.log[|s.log|] == FailPosted(m, OutOfRetries, effective);
        assert GivesUp(s.actors[a].pc);
      }
    }
  }

  lemma LocalGivenUp(cfg: Config, s: State, a: nat, c: Choice)
    requires Enabled(cfg, s, Local(a, c)) && Recorded(s) && GivenUp(cfg, s)
    ensures GivenUp(cfg, s.Put(a, LocalStep(cfg, s.actors[a].role, s.See(a), c)))
  {
    var role := s.actors[a].role;
    var w := LocalStep(cfg, role, s.See(a), c);
    assert SlotInv(role.Key(), s.Slot(role.Key()), s.log);
    LocalStepKeeps(cfg, role, s.See(a), c);
    if GivesUp(w.pc) {
      LocalGivesUp(cfg, role, s.See(a), c);
    }
    PutGivenUp(cfg, s, a, w);
  }

  /** Outside the local code nobody comes to give up. */
  lemma NobodyGivesUp(cfg: Config, s: State, step: Step, a: nat)
    requires Enabled(cfg, s, step) && Exclusive(s) && !step.Local?
    requires a in Apply(cfg, s, step).actors && GivesUp(Apply(cfg, s, step).actors[a].pc)
    ensures a in s.actors && Apply(cfg, s, step).actors[a] == s.actors[a]
  {
    if Moving(step) {
      StepMoves(cfg, s, step);
    }
  }

  lemma QuietGivenUp(cfg: Config, s: State, s': State)
    requires GivenUp(cfg, s) && LogQuiet(s.log, s'.log)
    requires forall a :: a in s'.actors && GivesUp(s'.actors[a].pc) ==> a in s.actors && s'.actors[a] == s.actors[a]
    ensures GivenUp(cfg, s')
  {}

  lemma GivenUpKept(cfg: Config, s: State, step: Step)
    requires Enabled(cfg, s, step) && Exclusive(s) && Recorded(s) && GivenUp(cfg, s)
    ensures GivenUp(cfg, Apply(cfg, s, step))
  {
    var s' := Apply(cfg, s, step);
    if step.Local? {
      LocalGivenUp(cfg, s, step.actor, step.choice);
    } else {
      if !step.Crash? {
        EnabledLog(cfg, s, step);
      }
      forall a | a in s'.actors && GivesUp(s'.actors[a].pc) ensures a in s.actors && s'.actors[a] == s.actors[a] {
        NobodyGivesUp(cfg, s, step, a);
      }
      QuietGivenUp(cfg, s, s');
    }
  }
}
